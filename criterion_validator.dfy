/** CriterionValidator: a criterion needs a condition; its type decides what
  * else it needs and how the condition is checked.  A runtime-expression
  * context must start with `$` or `<`. */
module CriterionValidator {
  import opened Wrappers
  import opened Strings
  import opened Model
  import opened ValidationResults
  import opened Validator
  import CE = CriterionEvaluator

  const Where := "criterion"

  // ----- the messages it records ---------------------------------------------

  const ConditionMandatory := "condition: is mandatory"
  const RegexNeedsContext := "type.regex: requires 'context' to be defined"
  const TypeIsNull := "type: is expected to be 'simple' but was null"

  function ContextNotRuntime(context: string): string {
    "context: must be a runtime expression but was '" + context + "'"
  }

  function SimpleInvalid(condition: string): string {
    "condition: '" + condition + "' is invalid for type 'simple'"
  }

  function RegexInvalid(condition: string): string {
    "condition: '" + condition + "' is a invalid regex"
  }

  function JsonPathInvalid(condition: string): string {
    "condition: '" + condition + "' contains invalid JSONPath"
  }

  function XPathInvalid(condition: string): string {
    "condition: '" + condition + "' contains invalid XPath"
  }

  // ----- `\$\.(?<path>[^ ]+)\s*(?<operator>…)\s*(?<expected>.+)` -----------

  const PathPatternText := "\\$\\.(?<path>[^ ]+)\\s*(?<operator>==|!=|<=|>=|<|>)\\s*(?<expected>.+)"

  function PathFailed(condition: string): Failure {
    IllegalState("Pattern matching failed: input='" + condition + "' pattern='" + PathPatternText + "'")
  }

  /** The greedy group `[^ ]+` starting at `g`, tried from its longest extent
    * `e` down to one character, with the operator and expected text after it. */
  function PathFrom(s: string, g: nat, e: nat): Option<string>
    requires g <= e <= |s|
    decreases e
  {
    if e < g + 1 then None
    else if CE.TailAt(s, e).Some? then Some(s[g..e])
    else PathFrom(s, g, e - 1)
  }

  /** Matcher.find from `k`: the path group of the first `$.` with a match. */
  function FindPath(s: string, k: nat): Option<string>
    decreases |s| - k
  {
    if k + 1 >= |s| then None
    else if s[k] == '$' && s[k + 1] == '.' then
      match PathFrom(s, k + 2, CE.NonSpaceEnd(s, k + 2))
        case Some(path) => Some(path)
        case None => FindPath(s, k + 1)
    else FindPath(s, k + 1)
  }

  /** validateJsonPath: the pointer of a `#/…` comparison, the path of a
    * `$.…` comparison, or else the whole condition must compile; a
    * comparison the pattern does not match is an exception. */
  function JsonPathValid(condition: string, hooks: Hooks): Result<bool> {
    if StartsWith(condition, "#/") then
      match CE.FindFrom(CE.PointerPattern, condition, 0)
        case None => Err(CE.PatternFailed(CE.PointerPattern, condition))
        case Some(m) => Ok(hooks.jsonPathCompiles(m.group))
    else if StartsWith(condition, "$.") then
      match FindPath(condition, 0)
        case None => Err(PathFailed(condition))
        case Some(path) => Ok(hooks.jsonPathCompiles(path))
    else Ok(hooks.jsonPathCompiles(condition))
  }

  // ----- the sections of validate ------------------------------------------------

  function Conditioned(c: Criterion): Report {
    if IsEmpty(c.condition) then Empty.AddError(Where, ConditionMandatory) else Empty
  }

  /** What the type demands: a context for REGEX, the expression type object
    * for JSONPATH and XPATH; no type at all is a warning. */
  function Typed(r: Report, c: Criterion, doc: Document, hooks: Hooks): (res: Result<Report>)
    ensures res.Ok? ==> Extends(r, res.value)
  {
    match c.ctype
      case None => Ok(r.AddWarning(Where, TypeIsNull))
      case Some(Simple) => Ok(r)
      case Some(Regex) => Ok(if IsEmpty(c.context) then r.AddError(Where, RegexNeedsContext) else r)
      case Some(JsonPath) =>
        var e :- hooks.expressionType(c.expressionType, c, doc);
        Ok(r.Merge(e))
      case Some(XPath) =>
        var e :- hooks.expressionType(c.expressionType, c, doc);
        Ok(r.Merge(e))
  }

  predicate IsRuntimeExpression(context: string) {
    StartsWith(context, "$") || StartsWith(context, "<")
  }

  function Contexted(r: Report, c: Criterion): (res: Report)
    ensures Extends(r, res)
  {
    if !IsEmpty(c.context) && !IsRuntimeExpression(c.context.value) then
      r.AddError(Where, ContextNotRuntime(c.context.value))
    else r
  }

  /** The condition, checked as its type says; a condition with no type is a
    * NullPointerException of the switch. */
  function ConditionChecked(r: Report, c: Criterion, hooks: Hooks): (res: Result<Report>)
    ensures res.Ok? ==> Extends(r, res.value)
  {
    if IsEmpty(c.condition) then Ok(r)
    else
      var condition := c.condition.value;
      match c.ctype
        case None => Err(NullReference("criterion type"))
        case Some(Simple) =>
          Ok(if Trim(condition) == "" then r.AddError(Where, SimpleInvalid(condition)) else r)
        case Some(Regex) =>
          Ok(if !hooks.regexCompiles(condition) then r.AddError(Where, RegexInvalid(condition)) else r)
        case Some(JsonPath) =>
          var valid :- JsonPathValid(condition, hooks);
          Ok(if !valid then r.AddError(Where, JsonPathInvalid(condition)) else r)
        case Some(XPath) =>
          Ok(if !hooks.xpathCompiles(condition) then r.AddError(Where, XPathInvalid(condition)) else r)
  }

  /** CriterionValidator.validate. */
  function Check(c: Criterion, doc: Document, hooks: Hooks): Result<Report> {
    var typed :- Typed(Conditioned(c), c, doc, hooks);
    var checked :- ConditionChecked(Contexted(typed, c), c, hooks);
    Ok(WithExtensions(checked, c.extensions, doc, hooks))
  }

  // ----- the validator ---------------------------------------------------------------

  /** The criterion validator, as a function of one criterion. */
  function Checker(doc: Document, hooks: Hooks): Criterion -> Result<Report> {
    c => Check(c, doc, hooks)
  }

  method Validate(c: Criterion, doc: Document, hooks: Hooks) returns (r: Result<ValidationResult>)
    ensures Outcome(r, Check(c, doc, hooks)) && (r.Ok? ==> fresh(r.value))
  {
    var result := new ValidationResult();
    if IsEmpty(c.condition) {
      result.AddError(Where, ConditionMandatory);
    }
    var thrown := ValidateType(result, c, doc, hooks);
    if thrown.Some? {
      return Err(thrown.value);
    }
    ValidateContext(result, c);
    thrown := ValidateCondition(result, c, hooks);
    if thrown.Some? {
      return Err(thrown.value);
    }
    if |c.extensions| > 0 {
      var extensions := new ValidationResult.Of(hooks.extensions(c.extensions, doc));
      result.Merge(extensions);
    }
    return Ok(result);
  }

  method ValidateType(result: ValidationResult, c: Criterion, doc: Document, hooks: Hooks) returns (thrown: Option<Failure>)
    modifies result
    ensures Typed(old(result.Contents()), c, doc, hooks)
         == if thrown.Some? then Err(thrown.value) else Ok(result.Contents())
  {
    if c.ctype.Some? {
      if c.ctype.value == Regex {
        if IsEmpty(c.context) {
          result.AddError(Where, RegexNeedsContext);
        }
      } else if c.ctype.value == JsonPath || c.ctype.value == XPath {
        var expressionType := hooks.expressionType(c.expressionType, c, doc);
        if expressionType.Err? {
          return Some(expressionType.error);
        }
        var sub := new ValidationResult.Of(expressionType.value);
        result.Merge(sub);
      }
    } else {
      result.AddWarning(Where, TypeIsNull);
    }
    return None;
  }

  method ValidateContext(result: ValidationResult, c: Criterion)
    modifies result
    ensures result.Contents() == Contexted(old(result.Contents()), c)
  {
    if !IsEmpty(c.context) {
      var isRuntimeExpression := StartsWith(c.context.value, "$") || StartsWith(c.context.value, "<");
      if !isRuntimeExpression {
        result.AddError(Where, ContextNotRuntime(c.context.value));
      }
    }
  }

  method ValidateCondition(result: ValidationResult, c: Criterion, hooks: Hooks) returns (thrown: Option<Failure>)
    modifies result
    ensures ConditionChecked(old(result.Contents()), c, hooks)
         == if thrown.Some? then Err(thrown.value) else Ok(result.Contents())
  {
    if !IsEmpty(c.condition) {
      var condition := c.condition.value;
      if c.ctype.None? {
        return Some(NullReference("criterion type"));
      }
      match c.ctype.value {
        case Simple =>
          if Trim(condition) == "" {
            result.AddError(Where, SimpleInvalid(condition));
          }
        case Regex =>
          if !hooks.regexCompiles(condition) {
            result.AddError(Where, RegexInvalid(condition));
          }
        case JsonPath =>
          var valid := JsonPathValid(condition, hooks);
          if valid.Err? {
            return Some(valid.error);
          }
          if !valid.value {
            result.AddError(Where, JsonPathInvalid(condition));
          }
        case XPath =>
          if !hooks.xpathCompiles(condition) {
            result.AddError(Where, XPathInvalid(condition));
          }
      }
    }
    return None;
  }

  // ----- what validate promises --------------------------------------------------

  /** While nothing throws, a missing condition is an error, and so are a
    * REGEX criterion without context and a context that is no runtime
    * expression; a missing type is only a warning. */
  lemma CriterionRules(c: Criterion, doc: Document, hooks: Hooks)
    requires Check(c, doc, hooks).Ok?
    ensures IsEmpty(c.condition) ==> Location(Where, ConditionMandatory) in Check(c, doc, hooks).value.errors
    ensures c.ctype == Some(Regex) && IsEmpty(c.context) ==>
      Location(Where, RegexNeedsContext) in Check(c, doc, hooks).value.errors
    ensures c.ctype.None? ==> Location(Where, TypeIsNull) in Check(c, doc, hooks).value.warnings
  {
    var conditioned := Conditioned(c);
    var typed := Typed(conditioned, c, doc, hooks).value;
    var contexted := Contexted(typed, c);
    var checked := ConditionChecked(contexted, c, hooks).value;
    var done := Check(c, doc, hooks).value;
    ExtendsTrans(typed, contexted, checked);
    ExtendsTrans(typed, checked, done);
    ExtendsTrans(conditioned, typed, done);
    ExtendsKeeps(conditioned, done, Location(Where, ConditionMandatory));
    ExtendsKeeps(typed, done, Location(Where, RegexNeedsContext));
    ExtendsKeeps(typed, done, Location(Where, TypeIsNull));
  }

  /** A context that is not a runtime expression is an error. */
  lemma ContextRule(c: Criterion, doc: Document, hooks: Hooks)
    requires Check(c, doc, hooks).Ok?
    ensures !IsEmpty(c.context) && !IsRuntimeExpression(c.context.value) ==>
      Location(Where, ContextNotRuntime(c.context.value)) in Check(c, doc, hooks).value.errors
  {
    var typed := Typed(Conditioned(c), c, doc, hooks).value;
    var contexted := Contexted(typed, c);
    var checked := ConditionChecked(contexted, c, hooks).value;
    var done := Check(c, doc, hooks).value;
    ExtendsTrans(contexted, checked, done);
    if !IsEmpty(c.context) {
      ExtendsKeeps(contexted, done, Location(Where, ContextNotRuntime(c.context.value)));
    }
  }

  /** Without a type the validator only warns about an empty condition, and
    * throws on any other: the switch on the missing type. */
  lemma UntypedThrows(c: Criterion, doc: Document, hooks: Hooks)
    requires c.ctype.None?
    ensures Check(c, doc, hooks).Err? <==> !IsEmpty(c.condition)
    ensures Check(c, doc, hooks).Err? ==> Check(c, doc, hooks).error == NullReference("criterion type")
  {
  }

  /** A SIMPLE condition is rejected exactly when it is made of characters
    * up to ' ' only. */
  lemma SimpleConditionBlank(r: Report, c: Criterion, hooks: Hooks)
    requires c.ctype == Some(Simple) && !IsEmpty(c.condition)
    ensures ConditionChecked(r, c, hooks) ==
      Ok(if forall i :: 0 <= i < |c.condition.value| ==> c.condition.value[i] <= ' '
         then r.AddError(Where, SimpleInvalid(c.condition.value)) else r)
  {
    TrimEmptyIff(c.condition.value);
  }

  // ----- what validateJsonPath promises ----------------------------------------------

  /** No extent of the path group leaves an operator after it. */
  lemma {:induction false} PathFromNone(s: string, g: nat, e: nat)
    requires g <= e <= |s| && CE.OpFree(s)
    ensures PathFrom(s, g, e) == None
    decreases e
  {
    if e >= g + 1 {
      CE.TailAtNone(s, e);
      var shorter := e - 1;
      PathFromNone(s, g, shorter);
    }
  }

  lemma {:induction false} FindPathNone(s: string, k: nat)
    requires CE.OpFree(s)
    ensures FindPath(s, k) == None
    decreases |s| - k
  {
    if k + 1 < |s| {
      if s[k] == '$' && s[k + 1] == '.' {
        PathFromNone(s, k + 2, CE.NonSpaceEnd(s, k + 2));
      }
      FindPathNone(s, k + 1);
    }
  }

  /** A `#/…` or `$.…` condition without any operator is not a comparison:
    * the pattern fails and the validator throws instead of reporting. */
  lemma JsonPathNoOperator(condition: string, hooks: Hooks)
    requires CE.OpFree(condition)
    ensures StartsWith(condition, "#/") ==>
      JsonPathValid(condition, hooks) == Err(CE.PatternFailed(CE.PointerPattern, condition))
    ensures StartsWith(condition, "$.") ==> JsonPathValid(condition, hooks) == Err(PathFailed(condition))
  {
    CE.FindFromNone(CE.PointerPattern, condition, 0);
    FindPathNone(condition, 0);
  }

  /** A condition with neither prefix is compiled whole. */
  lemma JsonPathPlain(condition: string, hooks: Hooks)
    requires !StartsWith(condition, "#/") && !StartsWith(condition, "$.")
    ensures JsonPathValid(condition, hooks) == Ok(hooks.jsonPathCompiles(condition))
  {
  }

  /** `#/a/b <op> x`: only the pointer `/a/b` has to compile. */
  lemma JsonPathPointer(ptr: string, op: CE.Op, x: string, hooks: Hooks)
    requires |ptr| >= 2 && ptr[0] == '/'
    requires forall i :: 0 <= i < |ptr| ==> ptr[i] != ' '
    requires x != "" && !IsRegexSpace(x[0])
    requires forall i :: 0 <= i < |x| ==> !CE.IsLineTerminator(x[i])
    ensures JsonPathValid("#" + ptr + " " + CE.OpText(op) + " " + x, hooks) == Ok(hooks.jsonPathCompiles(ptr))
  {
    var s := "#" + ptr + " " + CE.OpText(op) + " " + x;
    CE.PatternCanonical(CE.PointerPattern, ptr, op, x);
    assert s[0] == '#' && s[1] == ptr[0];
    assert StartsWith(s, "#/");
  }

  /** `$.a.b <op> x`: only the path `a.b` has to compile. */
  lemma JsonPathQuery(path: string, op: CE.Op, x: string, hooks: Hooks)
    requires |path| >= 1
    requires forall i :: 0 <= i < |path| ==> path[i] != ' '
    requires x != "" && !IsRegexSpace(x[0])
    requires forall i :: 0 <= i < |x| ==> !CE.IsLineTerminator(x[i])
    ensures JsonPathValid("$." + path + " " + CE.OpText(op) + " " + x, hooks) == Ok(hooks.jsonPathCompiles(path))
  {
    var s := "$." + path + " " + CE.OpText(op) + " " + x;
    PathCanonical(s, path, op, x);
    assert s[0] == '$' && s[1] == '.';
    assert !StartsWith(s, "#/");
    assert StartsWith(s, "$.");
  }

  lemma PathCanonical(s: string, path: string, op: CE.Op, x: string)
    requires s == "$." + path + " " + CE.OpText(op) + " " + x
    requires |path| >= 1
    requires forall i :: 0 <= i < |path| ==> path[i] != ' '
    requires x != "" && !IsRegexSpace(x[0])
    requires forall i :: 0 <= i < |x| ==> !CE.IsLineTerminator(x[i])
    ensures FindPath(s, 0) == Some(path)
  {
    var e := 2 + |path|;
    var tail := " " + CE.OpText(op) + " " + x;
    assert s == "$." + path + tail;
    assert s[e..] == tail;
    assert s[2..e] == path;
    assert s[e] == ' ';
    assert forall k :: 2 <= k < e ==> s[k] == path[k - 2];
    CE.NonSpaceEndAt(s, 2, e);
    CE.CanonicalTail(s, e, op, x);
    assert PathFrom(s, 2, e) == Some(path);
  }
}
