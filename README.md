# itarazzo-library core, modelled in Dafny

itarazzo-library reads an Arazzo 1.0 document, checks it, and runs its
workflows as ordered API calls. This project models its core:

- **Deserialization** (`ArazzoDeserializer`, `ParseResult`). The Jackson tree
  is read into the Arazzo model. Unexpected, missing, reserved, mistyped and
  repeated entries are recorded, and the result is marked invalid where the
  source marks it.
- **Validation** (`ValidationResult`, `ValidatorRegistry` and the validators
  for info, source descriptions, steps, parameters, failure actions,
  criteria, request bodies, payload replacements, reusable objects and
  components). They add invalid types, warnings, uniqueness entries and
  errors to a validation result, and throw where the source throws.
- **Expression resolution** (`SpecExpressionResolver`,
  `HttpContextExpressionResolver`, `ResolverUtils`,
  `ResolvedExpressionProvider`, `ComponentsReferenceResolver`). Runtime
  expressions such as `$inputs.x`, `$steps.s.outputs.y`,
  `$response.body#/a`, `$components.parameters.p` and `{...}`
  placeholders are resolved against the inputs, the document, the HTTP
  context and the cache of resolved expressions.
- **Criterion evaluation** (`CriterionEvaluator`). This covers simple
  conditions, REGEX, JSONPATH and XPATH criteria.
- **Execution** (`WorkflowExecutor`, with the step selection and retry logic
  of `RestAssuredStepExecutor`):
  - steps run in order;
  - the success and failure actions (END, GOTO, RETRY) are chosen by their
    criteria;
  - outputs are published into the cache;
  - nested workflows run through a fresh executor.
- **Workflow ordering** (`WorkflowSorterUtils`). Workflows are sorted
  topologically by `dependsOn`.
- **Inputs** (`InputsReader`). The inputs are filtered down to the schema's
  fields, and the mapper is chosen from the input text.

How the model is built:

- Pure logic becomes datatypes and functions. State-changing objects
  (ValidationResult, ParseResult, ArazzoDeserializer, the validators and the
  registry, the resolvers, the expression cache, the executors and the
  sorter) become classes. Each class method is proved equal to the function
  that specifies it.
- Java `null` is `Option.None`.
- A `NullPointerException` is `Failure.NullReference`. The source's
  exceptions are the other `Failure` cases.
- Operations that can throw return a `Result`.
- JSON and XML parsing, JsonPath, XPath, regular expressions, content-type
  matching and URL checks are parameters. They are the fields of an `Oracles`
  value.
- The HTTP transport is a `Host` parameter: the snapshot of a response is a
  function of the step and of the call's index. The request itself is built
  in the model, with its parameter values and payload resolved in the memo.
- Recursion that the source bounds only by the input's shape is bounded by
  a `fuel` argument, and runs out with `OutOfFuel`.

## Model

| member | source | states |
|---|---|---|
| ExpressionCache.ResolvedExpressionProvider.constructor | src/main/java/de/leidenheit/infrastructure/resolving/ResolvedExpressionProvider.java:11 | a new provider's map of resolved expressions is empty |
| ExpressionCache.ResolvedExpressionProvider.AddResolved | src/main/java/de/leidenheit/infrastructure/resolving/ResolvedExpressionProvider.java:20-22 | `put`: the expression now finds the new value, every other expression finds what it found before |
| ExpressionCache.ProviderHolder.constructor | src/main/java/de/leidenheit/infrastructure/resolving/ResolvedExpressionProvider.java:10 | before the first getInstance there is no provider |
| ExpressionCache.ProviderHolder.GetInstance | src/main/java/de/leidenheit/infrastructure/resolving/ResolvedExpressionProvider.java:13-18 | the first call creates an empty provider, every later call returns that same object |
| ResolverUtils.GetNestedValueInMap | src/main/java/de/leidenheit/infrastructure/utils/ResolverUtils.java:43-54 | the loop computes the walk along the dot-split path (a step from a non-map is null); a one-key path is a plain `get` |
| ResolverUtils.MapWalkAppend | src/main/java/de/leidenheit/infrastructure/utils/ResolverUtils.java:46-52 | walking a concatenated path is walking the second part from where the first part ends |
| ResolverUtils.MapWalkMissing | src/main/java/de/leidenheit/infrastructure/utils/ResolverUtils.java:47-48 | a key the map lacks makes the whole path null |
| ResolverUtils.GetNestedValueInJson | src/main/java/de/leidenheit/infrastructure/utils/ResolverUtils.java:13-41 | the loop computes the JSON walk: a missing key gives null, a node whose text holds `$` is replaced by its cached resolution parsed as JSON or XML |
| ResolverUtils.JsonWalkErrors | src/main/java/de/leidenheit/infrastructure/utils/ResolverUtils.java:19-40 | the walk fails only on a null resolution or on text that parses neither as JSON nor as XML |
| ResolverUtils.JsonWalkDollarFree | src/main/java/de/leidenheit/infrastructure/utils/ResolverUtils.java:16-27 | on a tree without `$` text the cache is never consulted and the walk is the plain walk through object fields |
| ResolverUtils.FieldWalkIsPointer | src/main/java/de/leidenheit/infrastructure/utils/ResolverUtils.java:16-27 | a plain field walk that arrives somewhere equals JSON Pointer evaluation of the same tokens |
| ComponentsResolver.ComponentsReferenceResolver.constructor | src/main/java/de/leidenheit/infrastructure/parsing/ComponentsReferenceResolver.java:18-20 | the resolver keeps the components node it is created for |
| ComponentsResolver.ComponentsResolverHolder.constructor | src/main/java/de/leidenheit/infrastructure/parsing/ComponentsReferenceResolver.java:14 | before the first getInstance there is no resolver |
| ComponentsResolver.ComponentsResolverHolder.GetInstance | src/main/java/de/leidenheit/infrastructure/parsing/ComponentsReferenceResolver.java:22-27 | the first call fixes the components node; every later call returns the same resolver and ignores the node passed |
| ComponentsResolver.ComponentsReferenceResolver.ResolveComponent | src/main/java/de/leidenheit/infrastructure/parsing/ComponentsReferenceResolver.java:29-53 | the method computes the reference's component: the JSON Pointer form, the `$components.` expression form, or Unsupported |
| ComponentsResolver.OtherReferenceUnsupported | src/main/java/de/leidenheit/infrastructure/parsing/ComponentsReferenceResolver.java:29-35 | a reference starting with neither `#` nor `$` is unsupported, with the reference in the message |
| ComponentsResolver.PointerReference | src/main/java/de/leidenheit/infrastructure/parsing/ComponentsReferenceResolver.java:38-45 | `#/components` + pointer names exactly the node JSON Pointer evaluation reaches, and fails naming the pointer when it reaches nothing |
| ComponentsResolver.ExpressionInvalidIff | src/main/java/de/leidenheit/infrastructure/parsing/ComponentsReferenceResolver.java:47-50 | a `$components.` expression is invalid exactly when only dots follow the prefix; the first-key check can never fail |
| ComponentsResolver.BothFormsAgree | src/main/java/de/leidenheit/infrastructure/parsing/ComponentsReferenceResolver.java:29-53 | for expression-free field names, `$components.a.b` and `#/components/a/b` name the same node, the plain field walk |
| SpecResolver.EnvOf | src/main/java/de/leidenheit/infrastructure/resolving/SpecExpressionResolver.java:26-36 | the resolver's arrays: one JSON node per source description and per workflow, and the steps of all workflows in one array |
| Model.SourceDescriptionJson | src/main/java/de/leidenheit/infrastructure/resolving/SpecExpressionResolver.java:28-29 | assumed shape of `convertValue`: a source description reads as an object whose `name` field is its name, JSON null when unset |
| Model.WorkflowJson | src/main/java/de/leidenheit/infrastructure/resolving/SpecExpressionResolver.java:30-31 | assumed shape of `convertValue`: a workflow reads as an object whose `workflowId` field is its id, JSON null when unset |
| Model.StepJson | src/main/java/de/leidenheit/infrastructure/resolving/SpecExpressionResolver.java:32-34 | assumed shape of `convertValue`: a step reads as an object whose `stepId` field is its id, JSON null when unset |
| Model.StepsJson | src/main/java/de/leidenheit/infrastructure/resolving/SpecExpressionResolver.java:32-34 | the steps array holds one object per step, in order |
| SpecResolver.FirstWithId | src/main/java/de/leidenheit/infrastructure/resolving/SpecExpressionResolver.java:141-168 | the search loop stops at the first node whose id field reads as the target; no earlier node matches, and None means no node matches |
| SpecResolver.SpecExpressionResolver.constructor | src/main/java/de/leidenheit/infrastructure/resolving/SpecExpressionResolver.java:26-36 | the resolver is built over the document's JSON arrays and takes the shared provider singleton |
| SpecResolver.SpecExpressionResolver.ResolveExpression | src/main/java/de/leidenheit/infrastructure/resolving/SpecExpressionResolver.java:38-89 | the method's result and the provider's new memo are those of the resolution function |
| SpecResolver.SpecExpressionResolver.ApplyMemoRule | src/main/java/de/leidenheit/infrastructure/resolving/SpecExpressionResolver.java:83-86 | the provider records the value under the expression exactly when the value is not null and its text differs from the expression ignoring case; otherwise the memo is unchanged |
| SpecResolver.SpecExpressionResolver.ResolveString | src/main/java/de/leidenheit/infrastructure/resolving/SpecExpressionResolver.java:91-123 | text with a `{$` is interpolated from its start; any other text is resolved once as a whole expression and shown as a string; the provider's new memo is that of the string-resolution function |
| SpecResolver.SpecExpressionResolver.InterpolateAll | src/main/java/de/leidenheit/infrastructure/resolving/SpecExpressionResolver.java:93-118 | the interpolation loop's result and the provider's new memo are those of interpolating from position 0 with an empty result |
| SpecResolver.SpecExpressionResolver.InterpolateOnce | src/main/java/de/leidenheit/infrastructure/resolving/SpecExpressionResolver.java:97-117 | one turn of the loop: no `{$` left appends the rest and ends; an unclosed one ends with the unmatched-brace error; otherwise the loop continues strictly past the closing brace with the same final outcome |
| SpecResolver.SpecExpressionResolver.ResolvePlaceholder | src/main/java/de/leidenheit/infrastructure/resolving/SpecExpressionResolver.java:108-117 | the placeholder's expression is resolved; a failure or a null value ends the loop with that failure, otherwise its text is appended and the loop continues after the closing brace |
| SpecResolver.SpecExpressionResolver.ResolveSourceDescription | src/main/java/de/leidenheit/infrastructure/resolving/SpecExpressionResolver.java:133-147 | the search loop computes the source-description lookup: a path of fewer than two keys is null, else the nested value of the first source with that name |
| SpecResolver.SpecExpressionResolver.ResolveById | src/main/java/de/leidenheit/infrastructure/resolving/SpecExpressionResolver.java:150-192 | the search loop over steps or workflows computes the lookup by id, memo included |
| SpecResolver.SpecExpressionResolver.ResolveFound | src/main/java/de/leidenheit/infrastructure/resolving/SpecExpressionResolver.java:160-188 | a found node's nested text is resolved as a string; a missing or non-text value is an error naming the path |
| SpecResolver.CacheHit | src/main/java/de/leidenheit/infrastructure/resolving/SpecExpressionResolver.java:41-44 | an expression already in the memo is answered from it, whatever the context, and the memo is unchanged |
| SpecResolver.ComponentsRejected | src/main/java/de/leidenheit/infrastructure/resolving/SpecExpressionResolver.java:70-72 | an uncached `$components.` or `#/components` expression is an error naming it |
| SpecResolver.NotSpecPrefixed | src/main/java/de/leidenheit/infrastructure/resolving/SpecExpressionResolver.java:45-70 | text without a leading `$` is none of the resolver's own prefixes |
| SpecResolver.PlainTextUnchanged | src/main/java/de/leidenheit/infrastructure/resolving/SpecExpressionResolver.java:93-121 | text that is no expression and holds no `{$` comes back unchanged and is not memoised |
| SpecResolver.LiteralVerbatim | src/main/java/de/leidenheit/infrastructure/resolving/SpecExpressionResolver.java:73-80 | a literal in no context or an HTTP context resolves to itself and is not memoised |
| SpecResolver.StatusCodeNotCached | src/main/java/de/leidenheit/infrastructure/resolving/SpecExpressionResolver.java:73-80 | `$statusCode` in an HTTP context is the status code's text from the HTTP resolver, never memoised |
| SpecResolver.IdWithoutPathIsNull | src/main/java/de/leidenheit/infrastructure/resolving/SpecExpressionResolver.java:151-175 | `$steps.<id>` and `$workflows.<id>` without a field path read as null |
| SpecResolver.ResolvedIsRemembered | src/main/java/de/leidenheit/infrastructure/resolving/SpecExpressionResolver.java:83-86 | a non-null resolution of one of the resolver's own expressions whose text differs (ignoring case) from the expression is remembered |
| SpecResolver.ResolveTwice | src/main/java/de/leidenheit/infrastructure/resolving/SpecExpressionResolver.java:83-86 | resolving such an expression again against the memo left behind gives the same value and changes nothing |
| SpecResolver.UnmatchedPlaceholder | src/main/java/de/leidenheit/infrastructure/resolving/SpecExpressionResolver.java:102-105 | a `{$` with no `}` after it is an error naming the whole text |
| SpecResolver.ScanSingle | src/main/java/de/leidenheit/infrastructure/resolving/SpecExpressionResolver.java:96-106 | in `pre{e}post` the scan finds the placeholder right after `pre`, with `e` between the braces |
| SpecResolver.InterpolateResolved | src/main/java/de/leidenheit/infrastructure/resolving/SpecExpressionResolver.java:106-117 | one loop turn: an error or null resolution stops the loop; otherwise the text before the placeholder and the value are appended and the scan goes on after `}` |
| SpecResolver.InterpolateUnclosed | src/main/java/de/leidenheit/infrastructure/resolving/SpecExpressionResolver.java:102-105 | an opening brace never closed is an error |
| SpecResolver.InterpolateNoneLeft | src/main/java/de/leidenheit/infrastructure/resolving/SpecExpressionResolver.java:96-100 | once no `{$` is left, the rest of the text is appended and the loop ends |
| SpecResolver.ResolveTextInterpolates | src/main/java/de/leidenheit/infrastructure/resolving/SpecExpressionResolver.java:93-95 | text holding a placeholder is interpolated from its start |
| SpecResolver.OnlyPlaceholderAt | src/main/java/de/leidenheit/infrastructure/resolving/SpecExpressionResolver.java:95-118 | a text with one placeholder that resolves to a value is the text around it with the value's text in its place |
| SpecResolver.SinglePlaceholder | src/main/java/de/leidenheit/infrastructure/resolving/SpecExpressionResolver.java:95-118 | `pre{e}post` with a value for `e` becomes `pre` + the value's text + `post` |
| SpecResolver.PlaceholderNullAt | src/main/java/de/leidenheit/infrastructure/resolving/SpecExpressionResolver.java:107-116 | a first placeholder that resolves to null is an error naming its expression |
| SpecResolver.SinglePlaceholderNull | src/main/java/de/leidenheit/infrastructure/resolving/SpecExpressionResolver.java:107-116 | in `pre{e}post`, a null resolution of `e` is an error naming `e` |
| SpecResolver.ResolveKeepsKeys | src/main/java/de/leidenheit/infrastructure/resolving/SpecExpressionResolver.java:83-86 | resolution never drops an expression from the memo; the memo only grows |
| SpecResolver.ResolveTextKeepsKeys | src/main/java/de/leidenheit/infrastructure/resolving/SpecExpressionResolver.java:91-123 | string resolution never drops an expression from the memo |
| SpecResolver.InterpolateKeepsKeys | src/main/java/de/leidenheit/infrastructure/resolving/SpecExpressionResolver.java:95-118 | the interpolation loop never drops an expression from the memo |
| SpecResolver.LookupByIdKeepsKeys | src/main/java/de/leidenheit/infrastructure/resolving/SpecExpressionResolver.java:150-192 | the lookup by id never drops an expression from the memo |
| SpecResolver.FoundValueKeepsKeys | src/main/java/de/leidenheit/infrastructure/resolving/SpecExpressionResolver.java:160-166 | resolving a found node's text never drops an expression from the memo |
| Values.HeaderValue | src/main/java/de/leidenheit/infrastructure/resolving/HttpContextExpressionResolver.java:109-112 | `Headers.getValue`: the value of the last header whose name matches ignoring case, None when no name matches |
| HttpResolver.ResolveHttp | src/main/java/de/leidenheit/infrastructure/resolving/HttpContextExpressionResolver.java:26-107 | no context gives the expression back, a context of another kind is an IllegalState error, and text without a leading `$` comes back unchanged |
| HttpResolver.LeadingDigits | src/main/java/de/leidenheit/infrastructure/resolving/HttpContextExpressionResolver.java:166-170 | the length of the run of digits a text starts with: all digits before it, a non-digit (or the end) after it |
| HttpResolver.CorrectFirst | src/main/java/de/leidenheit/infrastructure/resolving/HttpContextExpressionResolver.java:166-170 | the rewritten path starts with `[` exactly where the text starts with a dot before a digit, else with the text's first character |
| HttpResolver.CorrectLeavesNoDotDigit | src/main/java/de/leidenheit/infrastructure/resolving/HttpContextExpressionResolver.java:166-170 | after `replaceAll("\\.(\\d+)", "[$1]")` no dot followed by a digit is left |
| HttpResolver.CorrectIdentityIff | src/main/java/de/leidenheit/infrastructure/resolving/HttpContextExpressionResolver.java:166-170 | the rewrite leaves a path unchanged exactly when it has no dot before a digit |
| HttpResolver.CorrectIdempotent | src/main/java/de/leidenheit/infrastructure/resolving/HttpContextExpressionResolver.java:166-170 | rewriting twice is rewriting once |
| HttpResolver.FormatSegmentsAll | src/main/java/de/leidenheit/infrastructure/resolving/HttpContextExpressionResolver.java:145-161 | with no empty segment, every segment gives one formatted segment in order |
| HttpResolver.ConvertJsonPointerToJsonPath | src/main/java/de/leidenheit/infrastructure/resolving/HttpContextExpressionResolver.java:139-164 | the loop computes the dotted JSONPath of the pointer's non-empty segments, numeric ones in brackets |
| HttpResolver.PointerToPathOfNames | src/main/java/de/leidenheit/infrastructure/resolving/HttpContextExpressionResolver.java:139-164 | a pointer spelled from non-empty names becomes those names, indices bracketed, joined by dots |
| HttpResolver.PrefixClash | src/main/java/de/leidenheit/infrastructure/resolving/HttpContextExpressionResolver.java:33-104 | texts whose k-th characters differ cannot both be prefixes of one expression, so the branches are exclusive |
| HttpResolver.StatusCode | src/main/java/de/leidenheit/infrastructure/resolving/HttpContextExpressionResolver.java:33-34 | `$statusCode` is the latest status code as text |
| HttpResolver.HeaderLookup | src/main/java/de/leidenheit/infrastructure/resolving/HttpContextExpressionResolver.java:109-112 | `$response.header.<name>` and `$request.header.<name>` read the last header of that name ignoring case, null when absent |
| HttpResolver.ResponseBodyWhole | src/main/java/de/leidenheit/infrastructure/resolving/HttpContextExpressionResolver.java:39-54 | `$response.body` alone is the whole non-blank response body |
| HttpResolver.ResponseBodyBlank | src/main/java/de/leidenheit/infrastructure/resolving/HttpContextExpressionResolver.java:40-43 | a blank response body reads as null whatever path follows `$response.body` |
| HttpResolver.RequestPathParameter | src/main/java/de/leidenheit/infrastructure/resolving/HttpContextExpressionResolver.java:93-117 | `$request.path.<name>` reads that path parameter, null when absent |
| HttpResolver.RequestBodyText | src/main/java/de/leidenheit/infrastructure/resolving/HttpContextExpressionResolver.java:86-92 | `$request.body` is the body sent, null when blank |
| HttpResolver.ResponseOtherUnsupported | src/main/java/de/leidenheit/infrastructure/resolving/HttpContextExpressionResolver.java:35-81 | a `$response.` expression that is neither header nor body is unsupported, naming the expression |
| HttpResolver.RequestOtherUnsupported | src/main/java/de/leidenheit/infrastructure/resolving/HttpContextExpressionResolver.java:82-97 | a `$request.` expression that is not header, body or path is unsupported, naming the expression |
| HttpResolver.UrlAndMethod | src/main/java/de/leidenheit/infrastructure/resolving/HttpContextExpressionResolver.java:98-101 | `$url` and `$method` read the latest request's URL and HTTP method |
| HttpResolver.StatusCodeRoundTrip | src/main/java/de/leidenheit/infrastructure/resolving/HttpContextExpressionResolver.java:33-34 | the status code text parses back to the status code |
| CriterionEvaluator.OpText | src/main/java/de/leidenheit/infrastructure/evaluation/CriterionEvaluator.java:142 | every operator's text is one or two characters and starts with an operator character |
| CriterionEvaluator.OpOccursAtIff | src/main/java/de/leidenheit/infrastructure/evaluation/CriterionEvaluator.java:142 | the character-by-character test of an operator's text is the substring test |
| CriterionEvaluator.OpAt | src/main/java/de/leidenheit/infrastructure/evaluation/CriterionEvaluator.java:142 | an operator alternative matched at a position occurs there |
| CriterionEvaluator.OpAtHere | src/main/java/de/leidenheit/infrastructure/evaluation/CriterionEvaluator.java:142 | an operator occurring at a position, not followed by another operator character when it is a single one, is the alternative matched there |
| CriterionEvaluator.OpAtAround | src/main/java/de/leidenheit/infrastructure/evaluation/CriterionEvaluator.java:142 | the operator between two texts, the second not starting with an operator character, is the one matched there |
| CriterionEvaluator.SplitOnce | src/main/java/de/leidenheit/infrastructure/evaluation/CriterionEvaluator.java:142 | one operator match with no operator character around it splits the text into the two pieces around it |
| CriterionEvaluator.SplitAround | src/main/java/de/leidenheit/infrastructure/evaluation/CriterionEvaluator.java:142 | splitting `a <op> b` for operator-free `a` and `b` gives `a` and `b` |
| CriterionEvaluator.SplitOpsAround | src/main/java/de/leidenheit/infrastructure/evaluation/CriterionEvaluator.java:142 | `condition.split(...)` of `a <op> b` with a non-empty `b` gives exactly the two operands |
| CriterionEvaluator.NoOperatorInvalid | src/main/java/de/leidenheit/infrastructure/evaluation/CriterionEvaluator.java:142-145 | a condition without any operator is an invalid simple condition naming it |
| CriterionEvaluator.MissingRightInvalid | src/main/java/de/leidenheit/infrastructure/evaluation/CriterionEvaluator.java:142-145 | an operator with nothing after it leaves one part, so the condition is invalid |
| CriterionEvaluator.NoOtherOperator | src/main/java/de/leidenheit/infrastructure/evaluation/CriterionEvaluator.java:155-166 | in `a <op> b` no other operator text occurs, so the `contains` tests cannot pick another one |
| CriterionEvaluator.FirstContainedAround | src/main/java/de/leidenheit/infrastructure/evaluation/CriterionEvaluator.java:155-166 | the operator the `contains` chain picks for `a <op> b` is `op` |
| CriterionEvaluator.SimpleAround | src/main/java/de/leidenheit/infrastructure/evaluation/CriterionEvaluator.java:140-170 | a well-formed `a <op> b`: the trimmed operands are resolved left then right, and the result is the operator applied to their comparison and 0 |
| CriterionEvaluator.StringsEqualIgnoringCase | src/main/java/de/leidenheit/infrastructure/evaluation/CriterionEvaluator.java:175-176 | two strings compare as equal exactly when they are equal ignoring case |
| CriterionEvaluator.CompareSwapped | src/main/java/de/leidenheit/infrastructure/evaluation/CriterionEvaluator.java:172-181 | swapping comparable operands (other than null on the left) negates the comparison |
| CriterionEvaluator.NullAgainstText | src/main/java/de/leidenheit/infrastructure/evaluation/CriterionEvaluator.java:177-178 | null equals "null" only with null on the left; the other way round the operands are incomparable |
| CriterionEvaluator.MixedIncomparable | src/main/java/de/leidenheit/infrastructure/evaluation/CriterionEvaluator.java:179-181 | a number and a string are incomparable, either way round |
| CriterionEvaluator.UntypedIsSimple | src/main/java/de/leidenheit/infrastructure/evaluation/CriterionEvaluator.java:35-46 | a criterion without a type is evaluated exactly as a SIMPLE one |
| CriterionEvaluator.RegexContext | src/main/java/de/leidenheit/infrastructure/evaluation/CriterionEvaluator.java:48-66 | REGEX resolves the context first; a String is matched in full against the condition, anything else is an error naming the context |
| CriterionEvaluator.SkipSpaces | src/main/java/de/leidenheit/infrastructure/evaluation/CriterionEvaluator.java:81-107 | `\\s*` ends at the first character that is no regex space |
| CriterionEvaluator.LineEnd | src/main/java/de/leidenheit/infrastructure/evaluation/CriterionEvaluator.java:81-107 | `.+` ends at the first line terminator |
| CriterionEvaluator.NonSpaceEnd | src/main/java/de/leidenheit/infrastructure/evaluation/CriterionEvaluator.java:81-107 | `[^ ]+` ends at the first space |
| CriterionEvaluator.OpIndex | src/main/java/de/leidenheit/infrastructure/evaluation/CriterionEvaluator.java:81-107 | each operator has its position among the pattern's alternatives |
| CriterionEvaluator.OpAtFirst | src/main/java/de/leidenheit/infrastructure/evaluation/CriterionEvaluator.java:81-107 | the operator matched at a position is the first alternative occurring there |
| CriterionEvaluator.OperatorFromAt | src/main/java/de/leidenheit/infrastructure/evaluation/CriterionEvaluator.java:81-107 | when the rest of the pattern matches after it, the pattern's operator group takes the same alternative as the split regex |
| CriterionEvaluator.TrailerTakesRest | src/main/java/de/leidenheit/infrastructure/evaluation/CriterionEvaluator.java:81-107 | `\\s*(?<expected>.+)` before visible text without line terminators takes all of it |
| CriterionEvaluator.CanonicalTail | src/main/java/de/leidenheit/infrastructure/evaluation/CriterionEvaluator.java:81-107 | after the group of a well-formed condition the matcher reads its operator and expected text |
| CriterionEvaluator.CanonicalGroup | src/main/java/de/leidenheit/infrastructure/evaluation/CriterionEvaluator.java:81-107 | the group of a well-formed condition starts right after `#` (or at the start) and runs to the first space |
| CriterionEvaluator.PatternCanonical | src/main/java/de/leidenheit/infrastructure/evaluation/CriterionEvaluator.java:81-114 | for a well-formed `<ptr-or-query> <op> <expected>` the matcher finds exactly its group, operator and expected text |
| CriterionEvaluator.FindFromNone | src/main/java/de/leidenheit/infrastructure/evaluation/CriterionEvaluator.java:84-111 | a condition without an operator matches neither pattern |
| CriterionEvaluator.JsonPathNoOperator | src/main/java/de/leidenheit/infrastructure/evaluation/CriterionEvaluator.java:84-111 | a JSONPATH condition without an operator fails pattern matching, in either form |
| CriterionEvaluator.PointerComparisonCanonical | src/main/java/de/leidenheit/infrastructure/evaluation/CriterionEvaluator.java:79-104 | `#/a/b <op> x`: the text of the node the pointer reaches (empty when it reaches nothing) is compared with the resolved `x` as a SIMPLE condition |
| CriterionEvaluator.QueryComparisonCanonical | src/main/java/de/leidenheit/infrastructure/evaluation/CriterionEvaluator.java:105-129 | `$.a.b <op> x`: the value the query reads, written out, is compared with the resolved `x` as a SIMPLE condition; a failing query or a null value is an error |
| StepExecutor.FirstFitting | src/main/java/de/leidenheit/core/execution/RestAssuredStepExecutor.java:252-255 | the index of the fitting action, when one is found, is an index of the list |
| StepExecutor.SuccessCriteriaOf | src/main/java/de/leidenheit/core/execution/RestAssuredStepExecutor.java:253 | the criteria lists of the success actions, one per action in order |
| StepExecutor.FailureCriteriaOf | src/main/java/de/leidenheit/core/execution/RestAssuredStepExecutor.java:271 | the criteria lists of the failure actions, one per action in order |
| StepExecutor.FindFittingSuccessAction | src/main/java/de/leidenheit/core/execution/RestAssuredStepExecutor.java:247-263 | a step without onSuccess gives null and does not touch the memo; otherwise a selected action is one of the step's success actions |
| StepExecutor.ApplyRetryAfter | src/main/java/de/leidenheit/core/execution/RestAssuredStepExecutor.java:278-286 | only the retryAfter of the action can change, and only for a RETRY action with a Retry-After header; an unreadable header value fails only for a RETRY action |
| StepExecutor.FindFittingFailureAction | src/main/java/de/leidenheit/core/execution/RestAssuredStepExecutor.java:265-290 | a step without onFailure gives null and does not touch the memo; with onFailure a successful selection is never null |
| StepExecutor.HandleResponse | src/main/java/de/leidenheit/core/execution/RestAssuredStepExecutor.java:308-326 | the step is successful exactly when all its success criteria hold; a success action is only chosen for a successful step and a failure action only for a failed one |
| StepExecutor.FirstNameContained | src/main/java/de/leidenheit/core/execution/RestAssuredStepExecutor.java:209-213 | the index found is the first description whose name occurs in the identifier; none found means no name occurs; an error means a description without a name was reached |
| StepExecutor.RelevantSourceDescription | src/main/java/de/leidenheit/core/execution/RestAssuredStepExecutor.java:205-216 | a single description is always the one chosen, whatever the identifier; a chosen description is one of the list |
| StepExecutor.TrailingDigits | src/main/java/de/leidenheit/core/execution/RestAssuredStepExecutor.java:296 | the length of the run of digits that ends the text, with a non-digit (or the start) before it |
| StepExecutor.FindServerUrl | src/main/java/de/leidenheit/core/execution/RestAssuredStepExecutor.java:292-301 | the URL is the first server's, with the localhost fallback port applied; it exists exactly when the description references an OpenAPI document with a server |
| StepExecutor.AllHoldPrefixTail | src/main/java/de/leidenheit/core/execution/RestAssuredStepExecutor.java:379-393 | after a first criterion that holds, the evaluation of the rest starts from the memo it left |
| StepExecutor.AllHoldIff | src/main/java/de/leidenheit/core/execution/RestAssuredStepExecutor.java:379-393 | allMatch is true exactly when every criterion, judged in the memo the ones before it left, holds |
| StepExecutor.AllHoldStopsAt | src/main/java/de/leidenheit/core/execution/RestAssuredStepExecutor.java:379-393 | the evaluation stops at the first criterion that does not hold: its verdict is the answer and the later criteria are never judged |
| StepExecutor.FirstFittingPrefixTail | src/main/java/de/leidenheit/core/execution/RestAssuredStepExecutor.java:252-255 | after a first action that does not fit, the search over the rest starts from the memo its check left |
| StepExecutor.NoneFitsIff | src/main/java/de/leidenheit/core/execution/RestAssuredStepExecutor.java:252-255 | no action is found exactly when every action's check, in the memo the checks before it left, is false |
| StepExecutor.TailChecks | src/main/java/de/leidenheit/core/execution/RestAssuredStepExecutor.java:252-255 | after a first action that does not fit, the checks of the later actions are those of the rest of the list |
| StepExecutor.FirstMatchWins | src/main/java/de/leidenheit/core/execution/RestAssuredStepExecutor.java:252-255 | the k-th action is chosen exactly when it fits and every action before it was checked and did not fit |
| StepExecutor.NothingFits | src/main/java/de/leidenheit/core/execution/RestAssuredStepExecutor.java:257-258 | when no success action fits, success selection raises its error naming the step; the same holds for failure actions at 275-276 |
| StepExecutor.NoDot | src/main/java/de/leidenheit/core/execution/RestAssuredStepExecutor.java:284 | a run of digits contains no decimal point |
| StepExecutor.DecimalWholeOfInt | src/main/java/de/leidenheit/core/execution/RestAssuredStepExecutor.java:284 | a whole number of seconds written in decimal is read back as that number |
| StepExecutor.RetryAfterApplied | src/main/java/de/leidenheit/core/execution/RestAssuredStepExecutor.java:278-286 | a chosen RETRY action takes the seconds of the response's Retry-After header |
| StepExecutor.TrailingDigitsExact | src/main/java/de/leidenheit/core/execution/RestAssuredStepExecutor.java:296 | a run of exactly k digits at the end, after a non-digit, is what TrailingDigits counts |
| StepExecutor.MatchesPortSuffixIff | src/main/java/de/leidenheit/core/execution/RestAssuredStepExecutor.java:296 | the computed port test agrees with the regular expression .*:\\d{1,5} |
| StepExecutor.FallbackPort | src/main/java/de/leidenheit/core/execution/RestAssuredStepExecutor.java:296-299 | after the fallback a localhost URL ends in a port, and applying the fallback twice changes nothing more |
| StepExecutor.PublishKeepsKeys | src/main/java/de/leidenheit/core/execution/RestAssuredStepExecutor.java:328-345 | publishing keeps every memo entry and, when it succeeds, leaves one under the $steps.<stepId>.outputs.<key> name of every output |
| StepExecutor.OutputsOnlyOnSuccess | src/main/java/de/leidenheit/core/execution/RestAssuredStepExecutor.java:89-94 | a failed step leaves the memo as checking its criteria and actions left it, starting from the memo building the request left; a successful one has every output published |
| StepExecutor.ParameterMapFromKeys | src/main/java/de/leidenheit/core/execution/RestAssuredStepExecutor.java:117-126 | a built parameter map holds exactly the names of the parameters in its location, each with a non-null value; built or not, no memo entry is lost (the same holds for the header, cookie and path maps at 128-159) |
| StepExecutor.ParameterMapDistinct | src/main/java/de/leidenheit/core/execution/RestAssuredStepExecutor.java:117-126 | toMap builds a map only when no two parameters in its location share a name: a repeated name is an error |
| StepExecutor.ReplaceKeepsKeys | src/main/java/de/leidenheit/core/execution/RestAssuredStepExecutor.java:171-180 | applying the payload replacements in order never drops a memo entry |
| StepExecutor.PayloadKeepsKeys | src/main/java/de/leidenheit/core/execution/RestAssuredStepExecutor.java:166-183 | resolving the payload and applying its replacements never drops a memo entry |
| StepExecutor.RequestBuilt | src/main/java/de/leidenheit/core/execution/RestAssuredStepExecutor.java:97-186 | a built request has the source description's server URL as base, in each of the query, header, cookie and path maps exactly the names of the parameters in that location (all empty without parameters), and a body exactly when the step has one; built or not, no memo entry is lost |
| StepExecutor.QueryValueRemembered | src/main/java/de/leidenheit/core/execution/RestAssuredStepExecutor.java:117-123 | a query parameter whose value is an expression resolving to a non-null value of another text leaves that expression in the memo, where later resolutions find it; without a body the request carries exactly that value under the parameter's name |
| StepExecutor.BuildBeforeReply | src/main/java/de/leidenheit/core/execution/RestAssuredStepExecutor.java:78-87 | a request that cannot be built fails the step with the build's error whatever the transport would answer; a failed transport fails it with its own error; either way the memo keeps every entry, including those the build wrote |
| StepExecutor.SourceDescriptionNotFound | src/main/java/de/leidenheit/core/execution/RestAssuredStepExecutor.java:208-213 | among several descriptions, none whose name occurs in the identifier raises the not-found error |
| StepExecutor.Host.constructor | src/main/java/de/leidenheit/core/execution/RestAssuredStepExecutor.java:86-87 | the transport starts with no request sent and no wait recorded |
| StepExecutor.Host.Send | src/main/java/de/leidenheit/core/execution/RestAssuredStepExecutor.java:87 | the reply is the transport's answer to this step as the next request, and the request count grows by one |
| StepExecutor.Host.Sleep | src/main/java/de/leidenheit/core/execution/WorkflowExecutor.java:350-357 | a negative wait is refused; any other wait is recorded |
| StepExecutor.RestAssuredStepExecutor.constructor | src/main/java/de/leidenheit/core/execution/RestAssuredStepExecutor.java:64-70 | the executor keeps the document's source descriptions and the resolver it is given |
| StepExecutor.RestAssuredStepExecutor.HandleOutputs | src/main/java/de/leidenheit/core/execution/RestAssuredStepExecutor.java:328-345 | the new memo and the result are those of StepOutputs on the old memo |
| StepExecutor.RestAssuredStepExecutor.CollectParameters | src/main/java/de/leidenheit/core/execution/RestAssuredStepExecutor.java:117-126 | the map and the new memo are ParameterMapFrom's on the old memo: the values resolved in order, each written into the shared provider |
| StepExecutor.RestAssuredStepExecutor.ResolvePayload | src/main/java/de/leidenheit/core/execution/RestAssuredStepExecutor.java:164-183 | the body and the new memo are PayloadFor's on the old memo: the payload resolved as a string, then the replacements applied in order |
| StepExecutor.RestAssuredStepExecutor.BuildRequest | src/main/java/de/leidenheit/core/execution/RestAssuredStepExecutor.java:97-186 | the request and the new memo are RequestFor's on the old memo: server URL, query, header, cookie and path maps, then the body |
| StepExecutor.RestAssuredStepExecutor.ExecuteStep | src/main/java/de/leidenheit/core/execution/RestAssuredStepExecutor.java:72-95 | the result and the new memo are RunStep's on the transport's reply, judged in the memo building the request left; a request is sent exactly when the source description is found and the request could be built; no wait is recorded |
| WorkflowExecution.StepIndexFrom | src/main/java/de/leidenheit/core/execution/WorkflowExecutor.java:306-315 | the index found is the first step whose id equals the target; not found means no step has it; a step without an id before a match throws |
| WorkflowExecution.GotoStep | src/main/java/de/leidenheit/core/execution/WorkflowExecutor.java:102-105 | GOTO to a step id continues at the first step with exactly that id and does not end the run; an unknown id is the step-not-found error |
| WorkflowExecution.WorkflowIndexFrom | src/main/java/de/leidenheit/core/execution/WorkflowExecutor.java:295-304 | the workflow found is the first whose id is part of the reference; not found means no workflow id is |
| WorkflowExecution.ReferencedStepFrom | src/main/java/de/leidenheit/core/execution/WorkflowExecutor.java:261-268 | the step a pre-retry reference runs is the first whose id is part of the reference |
| WorkflowExecution.CollectSuccess | src/main/java/de/leidenheit/core/execution/WorkflowExecutor.java:317-326 | the candidates are the workflow's success actions in order followed by the step's chosen action, when there is one |
| WorkflowExecution.CollectFailure | src/main/java/de/leidenheit/core/execution/WorkflowExecutor.java:328-337 | the candidates are the workflow's failure actions in order followed by the step's chosen action, when there is one |
| WorkflowExecution.OutputKeyDiffers | src/main/java/de/leidenheit/core/execution/WorkflowExecutor.java:359-362 | different output keys are published under different $workflows.<id>.outputs.<key> names |
| WorkflowExecution.FirstDecidingSuccessWins | src/main/java/de/leidenheit/core/execution/WorkflowExecutor.java:126-157 | success actions that do not decide are passed over; the first that does settles the outcome, and with none the run stays sequential |
| WorkflowExecution.FirstDecidingFailureWins | src/main/java/de/leidenheit/core/execution/WorkflowExecutor.java:159-230 | the same for failure actions: the first deciding one settles the outcome, and with none the run stays sequential |
| WorkflowExecution.SuccessDecision | src/main/java/de/leidenheit/core/execution/WorkflowExecutor.java:129-147 | END ends the run; GOTO with a step id jumps to that step; GOTO with a workflow id runs that workflow and then ends the current one |
| WorkflowExecution.NoHandlingWithoutFailureActions | src/main/java/de/leidenheit/core/execution/WorkflowExecutor.java:90-96 | a failed step with no failure action at workflow or step level raises "No handling for unsuccessful operation" |
| WorkflowExecution.RetryOutcome | src/main/java/de/leidenheit/core/execution/WorkflowExecutor.java:184-219 | RETRY at or past the limit raises "Reached retry limit"; otherwise the step's counter goes up by one and stays within the limit, and the cursor returns to the failed step whatever the pre-retry reference decided |
| WorkflowExecution.FailureCountsOnce | src/main/java/de/leidenheit/core/execution/WorkflowExecutor.java:166-227 | judging the failure actions leaves the counters as they were or counts one more retry of the judged step, within the limit of a RETRY action among them |
| WorkflowExecution.RetryCountersGrow | src/main/java/de/leidenheit/core/execution/WorkflowExecutor.java:184-192 | the retry counters are never reset: a judgement of a step's outcome keeps them or counts one more retry of that step within the limit |
| WorkflowExecution.OutputKeySame | src/main/java/de/leidenheit/core/execution/WorkflowExecutor.java:359-362 | two keys published under the same name are the same key |
| WorkflowExecution.PublishedValues | src/main/java/de/leidenheit/core/execution/WorkflowExecutor.java:359-362 | after publishing, every output's name holds its resolved text and every other memo entry is unchanged |
| WorkflowExecution.WorkflowOutputsPublished | src/main/java/de/leidenheit/core/execution/WorkflowExecutor.java:232-254 | without outputs nothing changes; once every output resolved, each is readable under its $workflows.<id>.outputs.<key> name and the rest of the memo is kept |
| WorkflowExecution.ResolvedKeys | src/main/java/de/leidenheit/core/execution/WorkflowExecutor.java:236-250 | once resolving succeeds, every output's key is among the results |
| WorkflowExecution.WorkflowExecutor.constructor | src/main/java/de/leidenheit/core/execution/WorkflowExecutor.java:35-42 | the executor keeps its document and inputs and takes the shared provider from the holder when there is one |
| WorkflowExecution.WorkflowExecutor.ExecuteWorkflow | src/main/java/de/leidenheit/core/execution/WorkflowExecutor.java:44-77 | the result and the new memo, request count and waits are those of the run ExecWorkflow specifies |
| WorkflowExecution.WorkflowExecutor.ExecuteTurn | src/main/java/de/leidenheit/core/execution/WorkflowExecutor.java:50-72 | one turn of the step loop: an error, an end, or a next cursor and retry counters after which the rest of the run is the one Loop specifies from the old state |
| WorkflowExecution.WorkflowExecutor.HandleExecutionResultActions | src/main/java/de/leidenheit/core/execution/WorkflowExecutor.java:79-100 | the result and new state are HandleResult's on the old state |
| WorkflowExecution.WorkflowExecutor.HandleSuccessActions | src/main/java/de/leidenheit/core/execution/WorkflowExecutor.java:126-157 | the result and new state are HandleSuccessFrom's over the whole list |
| WorkflowExecution.WorkflowExecutor.HandleFailureActions | src/main/java/de/leidenheit/core/execution/WorkflowExecutor.java:159-230 | the result and new state are HandleFailureFrom's over the whole list |
| WorkflowExecution.WorkflowExecutor.HandleRetry | src/main/java/de/leidenheit/core/execution/WorkflowExecutor.java:184-220 | the result and new state are Retry's on the old state |
| WorkflowExecution.WorkflowExecutor.HandleRetryAction | src/main/java/de/leidenheit/core/execution/WorkflowExecutor.java:118-124 | the wait is asked for and the decision is the index of the step to retry, as RetryWait says |
| WorkflowExecution.WorkflowExecutor.HandleGotoStepAction | src/main/java/de/leidenheit/core/execution/WorkflowExecutor.java:102-105 | the decision is GotoStep's |
| WorkflowExecution.WorkflowExecutor.FindStepIndexById | src/main/java/de/leidenheit/core/execution/WorkflowExecutor.java:306-315 | the loop's answer is StepIndexFrom's from the first step |
| WorkflowExecution.WorkflowExecutor.HandleStepIdExecutionReference | src/main/java/de/leidenheit/core/execution/WorkflowExecutor.java:256-271 | the result and new state are StepRef's: the referenced step run and judged without retry counters |
| WorkflowExecution.WorkflowExecutor.HandleWorkflowIdExecutionReference | src/main/java/de/leidenheit/core/execution/WorkflowExecutor.java:273-277 | the result and new state are those of running the referenced workflow of this document |
| WorkflowExecution.WorkflowExecutor.ExecuteToReferencedWorkflow | src/main/java/de/leidenheit/core/execution/WorkflowExecutor.java:339-348 | the result and new state are Delegate's: the referenced document's workflow run by a new executor on the same memo |
| WorkflowExecution.WorkflowExecutor.HandleOutputs | src/main/java/de/leidenheit/core/execution/WorkflowExecutor.java:232-254 | the result and new memo are WorkflowOutputs' on the old memo |
| WorkflowSorter.Visit | src/main/java/de/leidenheit/infrastructure/utils/WorkflowSorterUtils.java:49-74 | a successful visit only adds to the visited ids |
| WorkflowSorter.VisitDeps | src/main/java/de/leidenheit/infrastructure/utils/WorkflowSorterUtils.java:60-69 | a successful search of the dependencies only adds to the visited ids |
| WorkflowSorter.VisitKeeps | src/main/java/de/leidenheit/infrastructure/utils/WorkflowSorterUtils.java:49-74 | from a good state a visit appends workflows of the map, each not visited before, ending with the visited workflow after everything it depends on |
| WorkflowSorter.PushGood | src/main/java/de/leidenheit/infrastructure/utils/WorkflowSorterUtils.java:56-57 | marking an id visited and pushing it keeps the search state good |
| WorkflowSorter.VisitDepsKeeps | src/main/java/de/leidenheit/infrastructure/utils/WorkflowSorterUtils.java:60-69 | from a good state the dependency loop leaves each of the dependencies sorted and only appends workflows of the map |
| WorkflowSorter.SkipKeeps | src/main/java/de/leidenheit/infrastructure/utils/WorkflowSorterUtils.java:66 | a dependency already visited and off the stack is already sorted |
| WorkflowSorter.DescendKeeps | src/main/java/de/leidenheit/infrastructure/utils/WorkflowSorterUtils.java:67 | a dependency visited now is sorted, as the last workflow its visit appended |
| WorkflowSorter.StillGood | src/main/java/de/leidenheit/infrastructure/utils/WorkflowSorterUtils.java:49-74 | a successful step of the search leaves it in a good state |
| WorkflowSorter.AppendKeeps | src/main/java/de/leidenheit/infrastructure/utils/WorkflowSorterUtils.java:71-73 | appending the visited workflow after its sorted dependencies keeps every dependency before its dependent and the ids distinct |
| WorkflowSorter.AppendDistinct | src/main/java/de/leidenheit/infrastructure/utils/WorkflowSorterUtils.java:73 | appending a workflow with a new id keeps the ids distinct |
| WorkflowSorter.AppendDepsBefore | src/main/java/de/leidenheit/infrastructure/utils/WorkflowSorterUtils.java:73 | appending a workflow whose dependencies are all present keeps every dependency before its dependent |
| WorkflowSorter.WorkflowMapOf | src/main/java/de/leidenheit/infrastructure/utils/WorkflowSorterUtils.java:30-32 | the map holds each workflow under its own id, every workflow id of the list is a key, and every value is a workflow of the list |
| WorkflowSorter.LastWins | src/main/java/de/leidenheit/infrastructure/utils/WorkflowSorterUtils.java:30-32 | of two workflows with the same id the later one is kept, as LinkedHashMap.put does |
| WorkflowSorter.SortFrom | src/main/java/de/leidenheit/infrastructure/utils/WorkflowSorterUtils.java:34-37 | the top-level loop only adds to the visited ids |
| WorkflowSorter.SortFromKeeps | src/main/java/de/leidenheit/infrastructure/utils/WorkflowSorterUtils.java:34-37 | the top-level loop from a good state sorts every remaining workflow's id, appending only workflows of the list or the map |
| WorkflowSorter.Sort | src/main/java/de/leidenheit/infrastructure/utils/WorkflowSorterUtils.java:23-47 | on success every dependency comes before its dependent, no id occurs twice, every sorted workflow is one of the list and every id of the list is sorted |
| WorkflowSorter.SortDocument | src/main/java/de/leidenheit/infrastructure/utils/WorkflowSorterUtils.java:46 | the document keeps everything but its workflows, which are the sorted list; it fails exactly when the sort does |
| WorkflowSorter.OnceEach | src/main/java/de/leidenheit/infrastructure/utils/WorkflowSorterUtils.java:23-47 | a list without repeated ids holds each of its workflows once |
| WorkflowSorter.SameElements | src/main/java/de/leidenheit/infrastructure/utils/WorkflowSorterUtils.java:23-47 | two lists without repeated ids holding the same workflows are permutations of each other |
| WorkflowSorter.SortPermutes | src/main/java/de/leidenheit/infrastructure/utils/WorkflowSorterUtils.java:23-47 | with unique ids the sorted list is a permutation of the document's workflows |
| WorkflowSorter.Taken | src/main/java/de/leidenheit/infrastructure/utils/WorkflowSorterUtils.java:34-37 | with unique ids every workflow of the list is in the sorted list |
| WorkflowSorter.NamedIs | src/main/java/de/leidenheit/infrastructure/utils/WorkflowSorterUtils.java:34-37 | with unique ids the sorted workflow carrying an id is the list's workflow with that id |
| WorkflowSorter.DependencyEarlier | src/main/java/de/leidenheit/infrastructure/utils/WorkflowSorterUtils.java:60-73 | with unique ids a workflow is sorted after every workflow it depends on |
| WorkflowSorter.ChainRanks | src/main/java/de/leidenheit/infrastructure/utils/WorkflowSorterUtils.java:60-73 | along a dependency chain the sorted positions drop by at least one per link |
| WorkflowSorter.CycleFails | src/main/java/de/leidenheit/infrastructure/utils/WorkflowSorterUtils.java:62-65 | a dependency cycle makes the sort fail; when every dependency names a workflow, the failure is exactly "Unexpected cyclic dependency" |
| WorkflowSorter.DependenciesNamed | src/main/java/de/leidenheit/infrastructure/utils/WorkflowSorterUtils.java:67 | after a successful sort, every dependency names a workflow of the document |
| WorkflowSorter.MissingDependencyFails | src/main/java/de/leidenheit/infrastructure/utils/WorkflowSorterUtils.java:67 | a dependency naming no workflow makes the sort fail, as the null workflow the map returns does |
| WorkflowSorter.SelfDependencyCyclic | src/main/java/de/leidenheit/infrastructure/utils/WorkflowSorterUtils.java:62-65 | a workflow whose first dependency is itself raises "Unexpected cyclic dependency" |
| WorkflowSorter.MapCycleInList | src/main/java/de/leidenheit/infrastructure/utils/WorkflowSorterUtils.java:30-32 | a chain of ids through the workflow map that comes back to its start is a dependency cycle of the document's list |
| WorkflowSorter.PositionLink | src/main/java/de/leidenheit/infrastructure/utils/WorkflowSorterUtils.java:30-32 | a dependency between two workflows of the map is a link between their positions in the list |
| WorkflowSorter.StackCycle | src/main/java/de/leidenheit/infrastructure/utils/WorkflowSorterUtils.java:62-65 | a dependency found on the recursion stack closes a dependency cycle through the map |
| WorkflowSorter.VisitFailsOnCycle | src/main/java/de/leidenheit/infrastructure/utils/WorkflowSorterUtils.java:49-74 | when every dependency is a key of the map, a visit fails only with "Unexpected cyclic dependency" and only when the map holds a cycle |
| WorkflowSorter.VisitDepsFailsOnCycle | src/main/java/de/leidenheit/infrastructure/utils/WorkflowSorterUtils.java:60-69 | when every dependency is a key of the map, the dependency loop fails only with "Unexpected cyclic dependency" and only when the map holds a cycle |
| WorkflowSorter.SortFromFailsOnCycle | src/main/java/de/leidenheit/infrastructure/utils/WorkflowSorterUtils.java:34-37 | when every dependency is a key of the map, the top-level loop fails only on a cycle |
| WorkflowSorter.SortFailsOnCycle | src/main/java/de/leidenheit/infrastructure/utils/WorkflowSorterUtils.java:23-47 | with unique ids and every dependency naming a workflow, the sort fails only with "Unexpected cyclic dependency", and only on a dependency cycle |
| WorkflowSorter.AcyclicSorts | src/main/java/de/leidenheit/infrastructure/utils/WorkflowSorterUtils.java:23-47 | with unique ids, every dependency naming a workflow and no dependency cycle, the sort succeeds with a permutation of the workflows |
| WorkflowSorter.SortSucceedsIff | src/main/java/de/leidenheit/infrastructure/utils/WorkflowSorterUtils.java:23-47 | with unique ids the sort succeeds if and only if every dependency names a workflow and there is no dependency cycle |
| WorkflowSorter.VisitLeaf | src/main/java/de/leidenheit/infrastructure/utils/WorkflowSorterUtils.java:49-74 | a workflow without dependencies is marked visited and appended |
| WorkflowSorter.NoDependenciesFrom | src/main/java/de/leidenheit/infrastructure/utils/WorkflowSorterUtils.java:34-37 | without dependencies the loop takes the rest of the workflows in order |
| WorkflowSorter.NoDependenciesKeepOrder | src/main/java/de/leidenheit/infrastructure/utils/WorkflowSorterUtils.java:23-47 | without any dependsOn and with unique ids, the sorted order is the document order |
| WorkflowSorter.VisitStep | src/main/java/de/leidenheit/infrastructure/utils/WorkflowSorterUtils.java:55-74 | a visit is the dependency loop with the id visited and pushed, then the append |
| WorkflowSorter.DescendStep | src/main/java/de/leidenheit/infrastructure/utils/WorkflowSorterUtils.java:67 | a dependency not yet visited is visited, and the loop goes on from the state the visit left or fails as it did |
| WorkflowSorter.SkipStep | src/main/java/de/leidenheit/infrastructure/utils/WorkflowSorterUtils.java:66 | a visited dependency off the stack is skipped |
| WorkflowSorter.TopStep | src/main/java/de/leidenheit/infrastructure/utils/WorkflowSorterUtils.java:34-37 | a workflow not yet visited is visited from the top, and the loop goes on from the state that left or fails as it did |
| WorkflowSorter.DependencySorter.constructor | src/main/java/de/leidenheit/infrastructure/utils/WorkflowSorterUtils.java:25-28 | the sorter starts with nothing visited, an empty stack and an empty result, over the given map |
| WorkflowSorter.DependencySorter.SortTopological | src/main/java/de/leidenheit/infrastructure/utils/WorkflowSorterUtils.java:49-74 | the method fails exactly when Visit does, with the same error; on success its state is Visit's and the stack is as it was |
| WorkflowSorter.DependencySorter.SortDependencies | src/main/java/de/leidenheit/infrastructure/utils/WorkflowSorterUtils.java:60-69 | the loop fails exactly when VisitDeps does, with the same error; on success its state is VisitDeps' and the stack is as it was |
| WorkflowSorter.BuildWorkflowMap | src/main/java/de/leidenheit/infrastructure/utils/WorkflowSorterUtils.java:30-32 | the loop builds the workflow map the search consults: every id of the list maps to the last workflow carrying it, and only to workflows of the list |
| WorkflowSorter.SortByDependencies | src/main/java/de/leidenheit/infrastructure/utils/WorkflowSorterUtils.java:23-47 | the result is SortDocument's |
| ValidationResults.Keys | src/main/java/de/leidenheit/infrastructure/validation/ValidationResult.java:17 | the keys of the invalid-type map, one per entry in insertion order |
| ValidationResults.FindSome | src/main/java/de/leidenheit/infrastructure/validation/ValidationResult.java:17 | Map.get finds a value exactly when the key is one of the map's keys |
| ValidationResults.PutFind | src/main/java/de/leidenheit/infrastructure/validation/ValidationResult.java:35 | after a put the key holds the new value and every other key its old one |
| ValidationResults.PutKeys | src/main/java/de/leidenheit/infrastructure/validation/ValidationResult.java:35 | a put of a present key keeps the key order; a new key goes last |
| ValidationResults.PutDistinct | src/main/java/de/leidenheit/infrastructure/validation/ValidationResult.java:35 | a put keeps the map's keys distinct |
| ValidationResults.FindAbsent | src/main/java/de/leidenheit/infrastructure/validation/ValidationResult.java:17 | in a map with distinct keys, the first key occurs nowhere in the rest |
| ValidationResults.PutAllFind | src/main/java/de/leidenheit/infrastructure/validation/ValidationResult.java:29 | after putAll a key of the other map holds its value there and every other key keeps its own |
| ValidationResults.PutAllDistinct | src/main/java/de/leidenheit/infrastructure/validation/ValidationResult.java:29 | putAll keeps the map's keys distinct |
| ValidationResults.AddsMarkInvalid | src/main/java/de/leidenheit/infrastructure/validation/ValidationResult.java:34-51 | addError, addUnique and addInvalidType make the result invalid and record exactly their entry; addWarning records its entry and leaves the flag as it was |
| ValidationResults.MergeCombines | src/main/java/de/leidenheit/infrastructure/validation/ValidationResult.java:24-32 | merge ORs the invalid flags, appends the other result's error, warning and unique lists after its own, and puts all its invalid types |
| ValidationResults.OperationsExtend | src/main/java/de/leidenheit/infrastructure/validation/ValidationResult.java:24-51 | every add and merge keeps all entries recorded before, in front, and never clears the flag |
| ValidationResults.ExtendsTrans | src/main/java/de/leidenheit/infrastructure/validation/ValidationResult.java:24-51 | keeping everything recorded is transitive over a sequence of operations |
| ValidationResults.ExtendsKeeps | src/main/java/de/leidenheit/infrastructure/validation/ValidationResult.java:24-51 | an error, warning or unique entry once recorded stays recorded |
| ValidationResults.MergeEmpty | src/main/java/de/leidenheit/infrastructure/validation/ValidationResult.java:24-32 | merging a fresh result changes nothing; merging into a fresh one copies the other side's flag and lists |
| ValidationResults.TypeMessagesSnoc | src/main/java/de/leidenheit/infrastructure/validation/ValidationResult.java:57-62 | the invalid-type messages grow by one message per entry, in order |
| ValidationResults.LocationMessagesSnoc | src/main/java/de/leidenheit/infrastructure/validation/ValidationResult.java:63-77 | the warning, unique and error messages grow by one message per entry, in order |
| ValidationResults.PrefixOnlyWhenLocated | src/main/java/de/leidenheit/infrastructure/validation/ValidationResult.java:59-76 | a message shows location and key joined by a dot, or the key alone when the location is empty |
| ValidationResults.LocationPrefix | src/main/java/de/leidenheit/infrastructure/validation/ValidationResult.java:59 | the prefix the loop builds, followed by the key, is the location-qualified key |
| ValidationResults.ValidationResult.constructor | src/main/java/de/leidenheit/infrastructure/validation/ValidationResult.java:12-22 | a built result is valid, has no entries and no document |
| ValidationResults.ValidationResult.Of | src/main/java/de/leidenheit/infrastructure/validation/ValidationResult.java:12-22 | a result holding the given content and no document |
| ValidationResults.ValidationResult.Merge | src/main/java/de/leidenheit/infrastructure/validation/ValidationResult.java:24-32 | the new content is the old content merged with the other's; the document is unchanged |
| ValidationResults.ValidationResult.AddInvalidType | src/main/java/de/leidenheit/infrastructure/validation/ValidationResult.java:34-37 | the new content is AddInvalidType's on the old one |
| ValidationResults.ValidationResult.AddWarning | src/main/java/de/leidenheit/infrastructure/validation/ValidationResult.java:39-41 | the new content is AddWarning's on the old one |
| ValidationResults.ValidationResult.AddUnique | src/main/java/de/leidenheit/infrastructure/validation/ValidationResult.java:43-46 | the new content is AddUnique's on the old one |
| ValidationResults.ValidationResult.AddError | src/main/java/de/leidenheit/infrastructure/validation/ValidationResult.java:48-51 | the new content is AddError's on the old one |
| ValidationResults.ValidationResult.SetArazzo | src/main/java/de/leidenheit/infrastructure/validation/ValidationResult.java:22 | the document is attached and the content unchanged |
| ValidationResults.ValidationResult.GetMessages | src/main/java/de/leidenheit/infrastructure/validation/ValidationResult.java:54-79 | the messages of the current content: one per invalid type, then per warning, per unique entry and per error, each group in its own order and each naming `location.key` (the key alone when the location is empty) |
| Validator.WithExtensions | src/main/java/de/leidenheit/infrastructure/validation/validators/StepValidator.java:116-119 | handing non-empty extensions to their validator keeps every entry found before and never clears the flag |
| Validator.MergeEachStep | src/main/java/de/leidenheit/infrastructure/validation/validators/StepValidator.java:77-80 | the forEach merge over one more element merges its result after the others', or ends with the first exception |
| Validator.MergeEachStops | src/main/java/de/leidenheit/infrastructure/validation/validators/StepValidator.java:77-80 | an exception part-way through the forEach ends the whole walk with it |
| Validator.MergeAllStep | src/main/java/de/leidenheit/infrastructure/validation/validators/StepValidator.java:77-80 | a walk over validators that cannot throw merges one more result at the end |
| Validator.MergeEachInvalid | src/main/java/de/leidenheit/infrastructure/validation/validators/StepValidator.java:77-80 | a walk that starts invalid ends invalid, and one element that comes back invalid makes the whole walk invalid |
| Validator.MergeAllInvalid | src/main/java/de/leidenheit/infrastructure/validation/validators/StepValidator.java:77-80 | the same for walks that cannot throw |
| Validator.MergeEachKeeps | src/main/java/de/leidenheit/infrastructure/validation/validators/StepValidator.java:77-80 | the entries found before a walk are kept, in front |
| Validator.MergeEachIncludes | src/main/java/de/leidenheit/infrastructure/validation/validators/StepValidator.java:77-80 | every element of a successful walk was validated without exception, and every error it reports reaches the walk's result |
| Validator.MergeAllKeeps | src/main/java/de/leidenheit/infrastructure/validation/validators/StepValidator.java:77-80 | the same keeping of earlier entries for walks that cannot throw |
| Validator.ParentWorkflow | src/main/java/de/leidenheit/infrastructure/validation/validators/StepValidator.java:137-145 | the parent is a workflow of the document holding the step; there is none exactly when no workflow holds it |
| Validator.FindParentWorkflow | src/main/java/de/leidenheit/infrastructure/validation/validators/StepValidator.java:137-145 | the loop's answer is ParentWorkflow's |
| Validator.WorkflowIdIn | src/main/java/de/leidenheit/infrastructure/validation/validators/StepValidator.java:191-192 | true means a workflow has exactly that id, false that none has; it cannot throw when every workflow has an id |
| Validator.StepIdIn | src/main/java/de/leidenheit/infrastructure/validation/validators/FailureActionValidator.java:49-50 | true means a step has exactly that id, false that none has; it cannot throw when every step has an id |
| StepValidator.AsWrittenAcceptsBackslash | src/main/java/de/leidenheit/infrastructure/validation/validators/StepValidator.java:129-131 | the pattern as written accepts a backslash in a step id, which the recommended form refuses |
| StepValidator.RecommendedStepIdRefusesBackslash | src/main/java/de/leidenheit/infrastructure/validation/validators/StepValidator.java:129-131 | an id of the recommended form has no backslash, and such an id also passes the pattern as written |
| StepValidator.DistinctCount | src/main/java/de/leidenheit/infrastructure/validation/validators/StepValidator.java:84 | the number of distinct entries is at most the length, and equal to it exactly when no two entries are equal |
| StepValidator.DuplicatesIff | src/main/java/de/leidenheit/infrastructure/validation/validators/StepValidator.java:84 | distinct().count() != size() holds exactly when two positions hold equal entries |
| StepValidator.StepIdCount | src/main/java/de/leidenheit/infrastructure/validation/validators/StepValidator.java:33-35 | counting equal ids over the parent's steps throws exactly when one of them has no id |
| StepValidator.StepIdCountRules | src/main/java/de/leidenheit/infrastructure/validation/validators/StepValidator.java:33-35 | the count is at least one exactly when some step has the id, and at least two exactly when two steps share it |
| StepValidator.AnyContained | src/main/java/de/leidenheit/infrastructure/validation/validators/StepValidator.java:153-156 | true means some text is contained, false that every one is present and not contained; a null text throws |
| StepValidator.OperationIdFound | src/main/java/de/leidenheit/infrastructure/validation/validators/StepValidator.java:147-163 | true means some OpenAPI description has an operation whose id the operationId contains; false that none has |
| StepValidator.OperationPathFound | src/main/java/de/leidenheit/infrastructure/validation/validators/StepValidator.java:165-180 | true means a description named in the path, of type openapi and loaded, matches it; with none such the answer is false; a nameless description throws |
| StepValidator.FirstDescriptionDecides | src/main/java/de/leidenheit/infrastructure/validation/validators/StepValidator.java:168-177 | the first description that describes the path decides, later ones are never consulted |
| StepValidator.SourceWorkflowFound | src/main/java/de/leidenheit/infrastructure/validation/validators/StepValidator.java:185-189 | true means an Arazzo description has a workflow whose id the reference contains; false that none has |
| StepValidator.FindOperationId | src/main/java/de/leidenheit/infrastructure/validation/validators/StepValidator.java:147-163 | the loop's answer is OperationIdFound's |
| StepValidator.FindOperationPath | src/main/java/de/leidenheit/infrastructure/validation/validators/StepValidator.java:165-180 | the loop's answer is OperationPathFound's |
| StepValidator.Identified | src/main/java/de/leidenheit/infrastructure/validation/validators/StepValidator.java:26-30 | the stepId check keeps every entry found before |
| StepValidator.Parented | src/main/java/de/leidenheit/infrastructure/validation/validators/StepValidator.java:31-40 | the parent check keeps every entry found before |
| StepValidator.Targeted | src/main/java/de/leidenheit/infrastructure/validation/validators/StepValidator.java:42-50 | the target count check keeps every entry found before |
| StepValidator.Header | src/main/java/de/leidenheit/infrastructure/validation/validators/StepValidator.java:26-50 | the first checks keep every entry found before |
| StepValidator.OperationIdChecked | src/main/java/de/leidenheit/infrastructure/validation/validators/StepValidator.java:52-57 | the operationId lookup keeps every entry found before |
| StepValidator.OperationPathChecked | src/main/java/de/leidenheit/infrastructure/validation/validators/StepValidator.java:58-63 | the operationPath lookup keeps every entry found before |
| StepValidator.WorkflowIdChecked | src/main/java/de/leidenheit/infrastructure/validation/validators/StepValidator.java:64-69 | the workflowId lookup keeps every entry found before |
| StepValidator.Lookups | src/main/java/de/leidenheit/infrastructure/validation/validators/StepValidator.java:52-69 | the three lookups keep every entry found before |
| StepValidator.Bodied | src/main/java/de/leidenheit/infrastructure/validation/validators/StepValidator.java:71-74 | the request body check keeps every entry found before |
| StepValidator.Criteria | src/main/java/de/leidenheit/infrastructure/validation/validators/StepValidator.java:76-81 | the success criteria walk keeps every entry found before |
| StepValidator.Succeeded | src/main/java/de/leidenheit/infrastructure/validation/validators/StepValidator.java:83-90 | the success action checks keep every entry found before |
| StepValidator.Failed | src/main/java/de/leidenheit/infrastructure/validation/validators/StepValidator.java:92-99 | the failure action checks keep every entry found before |
| StepValidator.OutputsChecked | src/main/java/de/leidenheit/infrastructure/validation/validators/StepValidator.java:101-105 | the output key check keeps every entry found before |
| StepValidator.Parametrised | src/main/java/de/leidenheit/infrastructure/validation/validators/StepValidator.java:107-114 | the parameter checks keep every entry found before |
| StepValidator.Finish | src/main/java/de/leidenheit/infrastructure/validation/validators/StepValidator.java:101-119 | outputs, parameters and extensions keep every entry found before |
| StepValidator.AfterSuccess | src/main/java/de/leidenheit/infrastructure/validation/validators/StepValidator.java:92-119 | what follows the success actions keeps every entry found before |
| StepValidator.Actions | src/main/java/de/leidenheit/infrastructure/validation/validators/StepValidator.java:83-119 | the actions and what follows keep every entry found before |
| StepValidator.Nested | src/main/java/de/leidenheit/infrastructure/validation/validators/StepValidator.java:71-119 | everything handed to other validators keeps every entry found before |
| StepValidator.Validate | src/main/java/de/leidenheit/infrastructure/validation/validators/StepValidator.java:19-122 | the method's outcome is Check's: the same exception, or a fresh result holding the specified entries |
| StepValidator.ValidateHeader | src/main/java/de/leidenheit/infrastructure/validation/validators/StepValidator.java:26-50 | the new content or the exception is Header's on the old content |
| StepValidator.ValidateParent | src/main/java/de/leidenheit/infrastructure/validation/validators/StepValidator.java:31-40 | the new content or the exception is Parented's |
| StepValidator.ValidateTargets | src/main/java/de/leidenheit/infrastructure/validation/validators/StepValidator.java:42-50 | the new content is Targeted's |
| StepValidator.ValidateLookups | src/main/java/de/leidenheit/infrastructure/validation/validators/StepValidator.java:52-69 | the new content or the exception is Lookups' |
| StepValidator.ValidateOperationId | src/main/java/de/leidenheit/infrastructure/validation/validators/StepValidator.java:52-57 | the new content or the exception is OperationIdChecked's |
| StepValidator.ValidateOperationPath | src/main/java/de/leidenheit/infrastructure/validation/validators/StepValidator.java:58-63 | the new content or the exception is OperationPathChecked's |
| StepValidator.ValidateWorkflowId | src/main/java/de/leidenheit/infrastructure/validation/validators/StepValidator.java:64-69 | the new content or the exception is WorkflowIdChecked's |
| StepValidator.ValidateNested | src/main/java/de/leidenheit/infrastructure/validation/validators/StepValidator.java:71-119 | the new content or the exception is Nested's |
| StepValidator.ValidateActions | src/main/java/de/leidenheit/infrastructure/validation/validators/StepValidator.java:83-119 | the new content or the exception is Actions' |
| StepValidator.ValidateFinish | src/main/java/de/leidenheit/infrastructure/validation/validators/StepValidator.java:101-119 | the new content or the exception is Finish's |
| StepValidator.ValidateCriteria | src/main/java/de/leidenheit/infrastructure/validation/validators/StepValidator.java:76-81 | the new content or the exception is Criteria's |
| StepValidator.ValidateSuccessActions | src/main/java/de/leidenheit/infrastructure/validation/validators/StepValidator.java:83-90 | the new content or the exception is Succeeded's |
| StepValidator.ValidateFailureActions | src/main/java/de/leidenheit/infrastructure/validation/validators/StepValidator.java:92-99 | the new content or the exception is Failed's |
| StepValidator.ValidateParameters | src/main/java/de/leidenheit/infrastructure/validation/validators/StepValidator.java:107-114 | the new content or the exception is Parametrised's |
| StepValidator.StepIdRules | src/main/java/de/leidenheit/infrastructure/validation/validators/StepValidator.java:26-30 | an empty stepId is the "is mandatory" error; a non-empty id outside the recommended characters is only a warning |
| StepValidator.HeaderKept | src/main/java/de/leidenheit/infrastructure/validation/validators/StepValidator.java:26-50 | what the first checks find is still in the final result |
| StepValidator.NoParentRule | src/main/java/de/leidenheit/infrastructure/validation/validators/StepValidator.java:38-40 | a step outside every workflow is the "has no parent workflow" error |
| StepValidator.MissingIdThrows | src/main/java/de/leidenheit/infrastructure/validation/validators/StepValidator.java:33-35 | a step of the parent workflow without an id makes validate throw |
| StepValidator.SharedIdRule | src/main/java/de/leidenheit/infrastructure/validation/validators/StepValidator.java:33-37 | two steps of the parent workflow with the step's id are the "must be unique" error |
| StepValidator.OwnIdPasses | src/main/java/de/leidenheit/infrastructure/validation/validators/StepValidator.java:31-40 | an id no two steps of the parent share adds nothing |
| StepValidator.HeaderTargets | src/main/java/de/leidenheit/infrastructure/validation/validators/StepValidator.java:42-50 | no target is the "requires one of" error and several are the "mutually exclusive" error |
| StepValidator.TargetRules | src/main/java/de/leidenheit/infrastructure/validation/validators/StepValidator.java:42-50 | the same two errors reach the final result |
| StepValidator.SingleTargetPasses | src/main/java/de/leidenheit/infrastructure/validation/validators/StepValidator.java:42-50 | the target check adds nothing exactly when one target is set |
| StepValidator.LookupRules | src/main/java/de/leidenheit/infrastructure/validation/validators/StepValidator.java:52-69 | a set operationId, operationPath or workflowId that is not found is its "was not found" error |
| StepValidator.LookupThrows | src/main/java/de/leidenheit/infrastructure/validation/validators/StepValidator.java:52-57 | an operationId lookup that throws ends validate with that exception |
| StepValidator.ActionRules | src/main/java/de/leidenheit/infrastructure/validation/validators/StepValidator.java:83-94 | repeated success actions and repeated failure actions are each an error |
| StepValidator.StepParametersNeverThrow | src/main/java/de/leidenheit/infrastructure/validation/validators/StepValidator.java:111-113 | with the step as context the parameter validator never throws |
| StepValidator.FinishRules | src/main/java/de/leidenheit/infrastructure/validation/validators/StepValidator.java:101-114 | badly formed output names and repeated parameters are errors, and a parameter without in is an error for a step that calls a workflow |
| ParameterValidator.Validate | src/main/java/de/leidenheit/infrastructure/validation/validators/ParameterValidator.java:18-42 | the method's outcome is Check's: the exception without a context, otherwise a fresh result with the specified entries |
| ParameterValidator.ParameterRules | src/main/java/de/leidenheit/infrastructure/validation/validators/ParameterValidator.java:23-35 | the validator throws exactly without a context; with one a missing name or value is an error, and so is a missing in when the context is a step that calls a workflow |
| ParameterValidator.InOnlyForWorkflowSteps | src/main/java/de/leidenheit/infrastructure/validation/validators/ParameterValidator.java:31-35 | a complete parameter without extensions is clean in any context but a workflow-calling step, where a missing in is the one error |
| RequestBodyValidator.Validate | src/main/java/de/leidenheit/infrastructure/validation/validators/RequestBodyValidator.java:16-39 | the fresh result holds exactly what Check specifies |
| RequestBodyValidator.ValidateReplacements | src/main/java/de/leidenheit/infrastructure/validation/validators/RequestBodyValidator.java:26-31 | the forEach leaves the content MergeAll specifies over the replacements |
| RequestBodyValidator.RequestBodyRules | src/main/java/de/leidenheit/infrastructure/validation/validators/RequestBodyValidator.java:23-31 | a missing payload is an error, a missing content type a warning, and an invalid replacement makes the body invalid |
| RequestBodyValidator.CleanBody | src/main/java/de/leidenheit/infrastructure/validation/validators/RequestBodyValidator.java:21-38 | a body with a payload, clean replacements and no extensions is valid without errors, and with a content type has no entries at all |
| RequestBodyValidator.MergeAllClean | src/main/java/de/leidenheit/infrastructure/validation/validators/RequestBodyValidator.java:26-31 | merging the results of complete replacements without extensions changes nothing |
| PayloadReplacementValidator.Validate | src/main/java/de/leidenheit/infrastructure/validation/validators/PayloadReplacementObjectValidator.java:16-32 | the fresh result holds exactly what Check specifies |
| PayloadReplacementValidator.PayloadReplacementRules | src/main/java/de/leidenheit/infrastructure/validation/validators/PayloadReplacementObjectValidator.java:21-31 | a missing target or value is an error and makes the result invalid; with both and no extensions there are no entries; the extension validator's errors come last |
| ReusableObjectValidator.Validate | src/main/java/de/leidenheit/infrastructure/validation/validators/ReusableObjectValidator.java:16-32 | the fresh result holds exactly what Check specifies |
| ReusableObjectValidator.ReusableObjectRules | src/main/java/de/leidenheit/infrastructure/validation/validators/ReusableObjectValidator.java:21-31 | invalid exactly when the reference is missing or a non-empty value overrides a $ reference not naming parameters; an empty value is never looked at; a #/ reference is always accepted; only errors are ever recorded |
| ReusableObjectValidator.ParameterReferencesOnly | src/main/java/de/leidenheit/infrastructure/validation/validators/ReusableObjectValidator.java:24-29 | a value is accepted with $components.parameters.p and rejected with $steps.s |
| InfoValidator.VersionNumberOf | src/main/java/de/leidenheit/infrastructure/validation/validators/InfoValidator.java:44-46 | a natural number written in decimal is one number of the version pattern and contains no dot |
| InfoValidator.VersionAsJoin | src/main/java/de/leidenheit/infrastructure/validation/validators/InfoValidator.java:44-46 | three parts joined with dots are the parts with a dot between each |
| InfoValidator.SemanticVersionIff | src/main/java/de/leidenheit/infrastructure/validation/validators/InfoValidator.java:44-46 | the pattern accepts exactly the texts written as three natural numbers joined by dots, each without a leading zero |
| InfoValidator.Validate | src/main/java/de/leidenheit/infrastructure/validation/validators/InfoValidator.java:16-37 | the fresh result holds exactly what Check specifies |
| InfoValidator.InfoRules | src/main/java/de/leidenheit/infrastructure/validation/validators/InfoValidator.java:21-36 | a missing title or version is an error; a non-semantic version only a warning; a titled, versioned Info without extensions is valid, and with a semantic version has no entries at all |
| ComponentsValidator.Entry | src/main/java/de/leidenheit/infrastructure/validation/validators/ComponentsValidator.java:25-35 | one entry's check keeps every entry found before it |
| ComponentsValidator.Validate | src/main/java/de/leidenheit/infrastructure/validation/validators/ComponentsValidator.java:16-72 | the method's outcome is Check's: the same exception, or a fresh result with the specified entries |
| ComponentsValidator.EntriesStep | src/main/java/de/leidenheit/infrastructure/validation/validators/ComponentsValidator.java:25-35 | the loop over one more entry applies the entry check to what the others left, or keeps their exception |
| ComponentsValidator.EntriesStops | src/main/java/de/leidenheit/infrastructure/validation/validators/ComponentsValidator.java:25-35 | an exception part-way through the entries ends the walk with it |
| ComponentsValidator.ValidateParameters | src/main/java/de/leidenheit/infrastructure/validation/validators/ComponentsValidator.java:24-36 | the parameter loop leaves the content or the exception Entries specifies |
| ComponentsValidator.ValidateSuccessActions | src/main/java/de/leidenheit/infrastructure/validation/validators/ComponentsValidator.java:38-50 | the success action loop leaves the content or the exception Entries specifies |
| ComponentsValidator.ValidateFailureActions | src/main/java/de/leidenheit/infrastructure/validation/validators/ComponentsValidator.java:52-64 | the failure action loop leaves the content or the exception Entries specifies |
| ComponentsValidator.EntriesKeep | src/main/java/de/leidenheit/infrastructure/validation/validators/ComponentsValidator.java:25-35 | a walk over the entries keeps everything found before it |
| ComponentsValidator.EntriesReportEmptyName | src/main/java/de/leidenheit/infrastructure/validation/validators/ComponentsValidator.java:29-31 | an entry with an empty name is reported, wherever it sits in the map |
| ComponentsValidator.ParametersNeverThrow | src/main/java/de/leidenheit/infrastructure/validation/validators/ComponentsValidator.java:33-34 | with the components as context the parameter validator never throws |
| ComponentsValidator.ComponentsRules | src/main/java/de/leidenheit/infrastructure/validation/validators/ComponentsValidator.java:24-64 | every empty name in the parameters, success actions or failure actions is its "name is mandatory" error |
| SourceDescriptionValidator.Located | src/main/java/de/leidenheit/infrastructure/validation/validators/SourceDescriptionValidator.java:30-37 | the url check keeps every entry found before |
| SourceDescriptionValidator.Referenced | src/main/java/de/leidenheit/infrastructure/validation/validators/SourceDescriptionValidator.java:39-47 | the referenced document check keeps every entry found before |
| SourceDescriptionValidator.Validate | src/main/java/de/leidenheit/infrastructure/validation/validators/SourceDescriptionValidator.java:17-55 | the fresh result holds exactly what Check specifies |
| SourceDescriptionValidator.ValidateUrl | src/main/java/de/leidenheit/infrastructure/validation/validators/SourceDescriptionValidator.java:30-37 | the new content is Located's |
| SourceDescriptionValidator.ValidateReference | src/main/java/de/leidenheit/infrastructure/validation/validators/SourceDescriptionValidator.java:39-47 | the new content is Referenced's |
| SourceDescriptionValidator.NameRules | src/main/java/de/leidenheit/infrastructure/validation/validators/SourceDescriptionValidator.java:24-28 | an empty name is an error; a name outside [A-Za-z0-9_-] only a warning that leaves the name check valid |
| SourceDescriptionValidator.UrlRules | src/main/java/de/leidenheit/infrastructure/validation/validators/SourceDescriptionValidator.java:30-37 | an empty url or one the file-or-URL check rejects is an error |
| SourceDescriptionValidator.ReferenceRules | src/main/java/de/leidenheit/infrastructure/validation/validators/SourceDescriptionValidator.java:39-47 | an openapi or arazzo description whose referenced document is missing is an error |
| SourceDescriptionValidator.OnlyNameWarning | src/main/java/de/leidenheit/infrastructure/validation/validators/SourceDescriptionValidator.java:22-54 | with a passing url, the announced document loaded and no extensions, the result is valid without errors and a badly formed name is the one warning |
| FailureActionValidator.Basics | src/main/java/de/leidenheit/infrastructure/validation/validators/FailureActionValidator.java:22-23 | a missing name and a missing type are each recorded as their own error, make the result invalid exactly when one of them is absent, and nothing else is recorded |
| FailureActionValidator.Counted | src/main/java/de/leidenheit/infrastructure/validation/validators/FailureActionValidator.java:28-36 | the target count only adds entries: a GOTO with no target or any action with both targets is reported and nothing earlier is lost |
| FailureActionValidator.WorkflowTarget | src/main/java/de/leidenheit/infrastructure/validation/validators/FailureActionValidator.java:38-44 | looking up the workflowId only adds entries to the result when it does not throw |
| FailureActionValidator.StepTarget | src/main/java/de/leidenheit/infrastructure/validation/validators/FailureActionValidator.java:46-57 | looking up the stepId inside a step only adds entries to the result when it does not throw |
| FailureActionValidator.RetrySettings | src/main/java/de/leidenheit/infrastructure/validation/validators/FailureActionValidator.java:59-78 | checking retryAfter and retryLimit only adds entries to the result |
| FailureActionValidator.Jump | src/main/java/de/leidenheit/infrastructure/validation/validators/FailureActionValidator.java:25-78 | the GOTO/RETRY branch keeps every entry recorded before it |
| FailureActionValidator.Ended | src/main/java/de/leidenheit/infrastructure/validation/validators/FailureActionValidator.java:79-89 | the END branch keeps every entry recorded before it |
| FailureActionValidator.Typed | src/main/java/de/leidenheit/infrastructure/validation/validators/FailureActionValidator.java:25-89 | whichever branch the type selects, the earlier entries are kept |
| FailureActionValidator.Criteria | src/main/java/de/leidenheit/infrastructure/validation/validators/FailureActionValidator.java:91-96 | merging each criterion's result keeps the earlier entries |
| FailureActionValidator.CriteriaAndExtensions | src/main/java/de/leidenheit/infrastructure/validation/validators/FailureActionValidator.java:91-101 | criteria and then extensions keep the earlier entries |
| FailureActionValidator.Validate | src/main/java/de/leidenheit/infrastructure/validation/validators/FailureActionValidator.java:15-104 | the result of validate is the one Check describes, in a fresh object, and it throws exactly when Check does |
| FailureActionValidator.ValidateCriteriaAndExtensions | src/main/java/de/leidenheit/infrastructure/validation/validators/FailureActionValidator.java:91-101 | the state after the criteria and extensions is CriteriaAndExtensions of the state before, or the failure it throws |
| FailureActionValidator.ValidateTyped | src/main/java/de/leidenheit/infrastructure/validation/validators/FailureActionValidator.java:25-89 | the state after the type-specific checks is Typed of the state before, or the failure it throws |
| FailureActionValidator.ValidateJump | src/main/java/de/leidenheit/infrastructure/validation/validators/FailureActionValidator.java:25-78 | the state after the GOTO/RETRY checks is Jump of the state before, or the failure it throws |
| FailureActionValidator.ValidateWorkflowTarget | src/main/java/de/leidenheit/infrastructure/validation/validators/FailureActionValidator.java:38-44 | the state after the workflowId lookup is WorkflowTarget of the state before, or the failure the lookup throws |
| FailureActionValidator.ValidateStepTarget | src/main/java/de/leidenheit/infrastructure/validation/validators/FailureActionValidator.java:46-57 | the state after the stepId lookup is StepTarget of the state before, or the failure the lookup throws |
| FailureActionValidator.ValidateRetrySettings | src/main/java/de/leidenheit/infrastructure/validation/validators/FailureActionValidator.java:59-78 | the state after the retry checks is RetrySettings of the state before |
| FailureActionValidator.ValidateCriteria | src/main/java/de/leidenheit/infrastructure/validation/validators/FailureActionValidator.java:91-96 | walking the criteria leaves the state MergeEach describes, stopping at the first criterion that throws |
| FailureActionValidator.JumpRules | src/main/java/de/leidenheit/infrastructure/validation/validators/FailureActionValidator.java:25-78 | on GOTO or RETRY, each of these is reported: a GOTO without a target, both targets set, a negative retryAfter or retryLimit on a RETRY, and a retryAfter or a retryLimit on a GOTO |
| FailureActionValidator.RetryListed | src/main/java/de/leidenheit/infrastructure/validation/validators/FailureActionValidator.java:59-78 | a negative retryAfter or retryLimit on a RETRY is reported, and so is a retryAfter or a retryLimit on any other action |
| FailureActionValidator.TargetLookups | src/main/java/de/leidenheit/infrastructure/validation/validators/FailureActionValidator.java:38-57 | the workflowId is looked up among the document's workflows and a missing one is reported; the stepId is checked only for a step context; a step without a parent workflow is reported; the lookup cannot throw when every step of the parent has an id |
| FailureActionValidator.EndRules | src/main/java/de/leidenheit/infrastructure/validation/validators/FailureActionValidator.java:79-89 | an END never throws on its own fields; a workflowId or stepId on it is reported, and so is a retryAfter and a retryLimit |
| FailureActionValidator.CriterionThrows | src/main/java/de/leidenheit/infrastructure/validation/validators/FailureActionValidator.java:91-96 | the first criterion whose validation throws makes the whole action throw that failure |
| CriterionValidator.Typed | src/main/java/de/leidenheit/infrastructure/validation/validators/CriterionValidator.java:33-47 | the type checks keep every earlier entry when they do not throw |
| CriterionValidator.Contexted | src/main/java/de/leidenheit/infrastructure/validation/validators/CriterionValidator.java:49-54 | the context check keeps every earlier entry |
| CriterionValidator.ConditionChecked | src/main/java/de/leidenheit/infrastructure/validation/validators/CriterionValidator.java:56-81 | the condition check keeps every earlier entry when it does not throw |
| CriterionValidator.Validate | src/main/java/de/leidenheit/infrastructure/validation/validators/CriterionValidator.java:25-89 | the result of validate is the one Check describes, in a fresh object, and it throws exactly when Check does |
| CriterionValidator.ValidateType | src/main/java/de/leidenheit/infrastructure/validation/validators/CriterionValidator.java:33-47 | the state after the type checks is Typed of the state before, or the failure the expression-type validator throws |
| CriterionValidator.ValidateContext | src/main/java/de/leidenheit/infrastructure/validation/validators/CriterionValidator.java:49-54 | the state after the context check is Contexted of the state before |
| CriterionValidator.ValidateCondition | src/main/java/de/leidenheit/infrastructure/validation/validators/CriterionValidator.java:56-81 | the state after the condition check is ConditionChecked of the state before, or the failure it throws |
| CriterionValidator.CriterionRules | src/main/java/de/leidenheit/infrastructure/validation/validators/CriterionValidator.java:31-47 | when nothing throws: a missing condition is an error, a REGEX criterion without context is an error, and a missing type is only a warning |
| CriterionValidator.ContextRule | src/main/java/de/leidenheit/infrastructure/validation/validators/CriterionValidator.java:49-54 | when nothing throws, a context that starts with neither `$` nor `<` is reported as an error naming it |
| CriterionValidator.UntypedThrows | src/main/java/de/leidenheit/infrastructure/validation/validators/CriterionValidator.java:56-57 | without a type, validate throws exactly when the condition is not empty, and the failure is the null dereference of the switch |
| CriterionValidator.SimpleConditionBlank | src/main/java/de/leidenheit/infrastructure/validation/validators/CriterionValidator.java:58-62 | a SIMPLE condition is reported exactly when every character of it is at most ' ', which is what trim().isEmpty() tests |
| CriterionValidator.PathFromNone | src/main/java/de/leidenheit/infrastructure/validation/validators/CriterionValidator.java:125-128 | without an operator in the text, no extent of the path group matches |
| CriterionValidator.FindPathNone | src/main/java/de/leidenheit/infrastructure/validation/validators/CriterionValidator.java:125-128 | without an operator in the text, the `$.` pattern is found nowhere |
| CriterionValidator.JsonPathNoOperator | src/main/java/de/leidenheit/infrastructure/validation/validators/CriterionValidator.java:112-133 | a `#/` or `$.` condition without a comparison operator makes the pattern fail, so validation throws instead of reporting |
| CriterionValidator.JsonPathPlain | src/main/java/de/leidenheit/infrastructure/validation/validators/CriterionValidator.java:135-136 | a condition with neither prefix is compiled as a whole |
| CriterionValidator.JsonPathPointer | src/main/java/de/leidenheit/infrastructure/validation/validators/CriterionValidator.java:112-122 | for `#/a/b <op> x`, only the pointer `/a/b` has to compile |
| CriterionValidator.JsonPathQuery | src/main/java/de/leidenheit/infrastructure/validation/validators/CriterionValidator.java:123-134 | for `$.a.b <op> x`, only the path `a.b` has to compile |
| CriterionValidator.PathCanonical | src/main/java/de/leidenheit/infrastructure/validation/validators/CriterionValidator.java:125-131 | the `$.` pattern finds the path group of a well-formed comparison |
| ValidatorRegistries.AsWrittenNoCriterionValidator | src/main/java/de/leidenheit/infrastructure/validation/validators/CriterionValidator.java:91-94 | as written, no built-in validator's supports accepts the Criterion class, because CriterionValidator's supports names the validator's own class |
| ValidatorRegistries.OneBuiltinPerClass | src/main/java/de/leidenheit/infrastructure/validation/ValidatorRegistry.java:15-31 | corrected, every model class other than the validator's own has exactly one built-in validator in the default list |
| ValidatorRegistries.Defaults | src/main/java/de/leidenheit/infrastructure/validation/ValidatorRegistry.java:15-31 | the registry starts with the thirteen default validators, in the order they are listed |
| ValidatorRegistries.FindValidator | src/main/java/de/leidenheit/infrastructure/validation/ValidatorRegistry.java:87-94 | the validator found is the first one in the list that supports the class, and nothing is found exactly when none supports it |
| ValidatorRegistries.FindFrom | src/main/java/de/leidenheit/infrastructure/validation/ValidatorRegistry.java:88-93 | the search from position k finds the first supporting validator at or after k, or nothing when none at or after k supports the class |
| ValidatorRegistries.FindInPrefix | src/main/java/de/leidenheit/infrastructure/validation/ValidatorRegistry.java:33-35 | validators registered after a list that already supports a class are never consulted for that class |
| ValidatorRegistries.PassOver | src/main/java/de/leidenheit/infrastructure/validation/ValidatorRegistry.java:88-92 | a validator that does not support the class is passed over |
| ValidatorRegistries.DefaultsFind | src/main/java/de/leidenheit/infrastructure/validation/ValidatorRegistry.java:15-31 | the default list finds the built-in validator of each kind of part validate hands over |
| ValidatorRegistries.ComponentsFound | src/main/java/de/leidenheit/infrastructure/validation/ValidatorRegistry.java:30 | the components validator, last in the default list, is the one found for the components class |
| ValidatorRegistries.BuiltinsKeepPrecedence | src/main/java/de/leidenheit/infrastructure/validation/ValidatorRegistry.java:76-94 | whatever was registered after the defaults, each part goes to its built-in validator, so validateObject gives that validator's result |
| ValidatorRegistries.NoValidatorThrows | src/main/java/de/leidenheit/infrastructure/validation/ValidatorRegistry.java:81-83 | a list in which no validator supports the part's class makes validateObject throw, naming the class |
| ValidatorRegistries.InfoChecked | src/main/java/de/leidenheit/infrastructure/validation/ValidatorRegistry.java:46-47 | merging the info's result keeps every earlier entry |
| ValidatorRegistries.ComponentsChecked | src/main/java/de/leidenheit/infrastructure/validation/ValidatorRegistry.java:59-62 | merging the components' result keeps every earlier entry |
| ValidatorRegistries.Parts | src/main/java/de/leidenheit/infrastructure/validation/ValidatorRegistry.java:49-68 | the source descriptions, workflows, components and extensions keep every earlier entry when they do not throw |
| ValidatorRegistries.ValidatorRegistry.constructor | src/main/java/de/leidenheit/infrastructure/validation/ValidatorRegistry.java:15-31 | a new registry holds exactly the default validators |
| ValidatorRegistries.ValidatorRegistry.Register | src/main/java/de/leidenheit/infrastructure/validation/ValidatorRegistry.java:33-35 | register appends the validator at the end of the list, so the defaults stay first |
| ValidatorRegistries.ValidatorRegistry.FindValidatorForObject | src/main/java/de/leidenheit/infrastructure/validation/ValidatorRegistry.java:87-94 | the loop returns FindValidator of the current list |
| ValidatorRegistries.ValidatorRegistry.ValidateObject | src/main/java/de/leidenheit/infrastructure/validation/ValidatorRegistry.java:76-85 | the result of validateObject is ObjectCheck of the current list, in a fresh object: the found validator's result, or the IllegalState failure when none is found |
| ValidatorRegistries.ValidatorRegistry.Validate | src/main/java/de/leidenheit/infrastructure/validation/ValidatorRegistry.java:37-73 | the result of validate is the one Check describes, and it carries the document |
| ValidatorRegistries.ValidatorRegistry.ValidateParts | src/main/java/de/leidenheit/infrastructure/validation/ValidatorRegistry.java:49-68 | the state after the parts is Parts of the state before, or the failure thrown |
| ValidatorRegistries.ValidatorRegistry.ValidateSourceDescriptions | src/main/java/de/leidenheit/infrastructure/validation/ValidatorRegistry.java:50-52 | the source-description loop leaves the state MergeEach describes, stopping at the first one that throws |
| ValidatorRegistries.ValidatorRegistry.ValidateWorkflows | src/main/java/de/leidenheit/infrastructure/validation/ValidatorRegistry.java:55-57 | the workflow loop leaves the state MergeEach describes, stopping at the first one that throws |
| ValidatorRegistries.VersionRules | src/main/java/de/leidenheit/infrastructure/validation/ValidatorRegistry.java:40-44 | an empty version is an error; a version that is not three numbers major.minor.patch without leading zeros is only a warning; a version that is present never makes the result invalid by itself |
| ValidatorRegistries.NoInfoThrows | src/main/java/de/leidenheit/infrastructure/validation/ValidatorRegistry.java:47 | a document without info throws a null dereference before anything else is looked at |
| ValidatorRegistries.Stages | src/main/java/de/leidenheit/infrastructure/validation/ValidatorRegistry.java:37-73 | each stage of validate keeps what the stage before it found: info, then source descriptions, then workflows, then components |
| ValidatorRegistries.InfoVisited | src/main/java/de/leidenheit/infrastructure/validation/ValidatorRegistry.java:46-47 | with the registry's own list, every error the info validator reports is in the result |
| ValidatorRegistries.SourceDescriptionVisited | src/main/java/de/leidenheit/infrastructure/validation/ValidatorRegistry.java:49-52 | with the registry's own list, every error reported for any source description is in the result |
| ValidatorRegistries.WorkflowVisited | src/main/java/de/leidenheit/infrastructure/validation/ValidatorRegistry.java:54-57 | with the registry's own list, every workflow's validation succeeds and every error it reports is in the result |
| ValidatorRegistries.ComponentsVisited | src/main/java/de/leidenheit/infrastructure/validation/ValidatorRegistry.java:59-62 | with the registry's own list, the components' validation succeeds and every error it reports is in the result |
| ParseResults.ParseLog.Reserved | src/main/java/de/leidenheit/infrastructure/parsing/ArazzoDeserializer.java:1420-1422 | recording a reserved key keeps the invalid flag |
| ParseResults.ParseLog.Extra | src/main/java/de/leidenheit/infrastructure/parsing/ArazzoDeserializer.java:1424-1426 | recording an extra key keeps the invalid flag |
| ParseResults.ParseLog.Missing | src/main/java/de/leidenheit/infrastructure/parsing/ArazzoDeserializer.java:1428-1430 | recording a missing key keeps the invalid flag |
| ParseResults.ParseLog.Warning | src/main/java/de/leidenheit/infrastructure/parsing/ArazzoDeserializer.java:1432-1434 | recording a warning keeps the invalid flag |
| ParseResults.ParseLog.Unique | src/main/java/de/leidenheit/infrastructure/parsing/ArazzoDeserializer.java:1436-1438 | recording a repeated key keeps the invalid flag |
| ParseResults.ParseLog.InvalidType | src/main/java/de/leidenheit/infrastructure/parsing/ArazzoDeserializer.java:1440-1442 | recording an invalid type keeps the invalid flag |
| ParseResults.ParseLog.Invalid | src/main/java/de/leidenheit/infrastructure/parsing/ArazzoDeserializer.java:1444-1446 | invalid() leaves the result invalid |
| ParseResults.RecordingRules | src/main/java/de/leidenheit/infrastructure/parsing/ArazzoDeserializer.java:1420-1446 | each recording appends its location to its own list, an extra location is kept once however often it is met, an invalid type can be found under its location with the expected type, and only invalid() raises the flag |
| ParseResults.ExtraKeepsDistinct | src/main/java/de/leidenheit/infrastructure/parsing/ArazzoDeserializer.java:1424-1426 | the extra keys stay free of duplicates, as the keys of a map are |
| ParseResults.GroupMessagesSnoc | src/main/java/de/leidenheit/infrastructure/parsing/ArazzoDeserializer.java:1451-1480 | each message loop appends one message per entry |
| ParseResults.ParsePrefixOnlyWhenLocated | src/main/java/de/leidenheit/infrastructure/parsing/ArazzoDeserializer.java:1452-1464 | a message names `location.key` when the location is non-empty and the key alone otherwise |
| ParseResults.ParseResult.constructor | src/main/java/de/leidenheit/infrastructure/parsing/ArazzoDeserializer.java:1407-1418 | a new ParseResult is valid, has empty lists and maps, and holds the options it is given |
| ParseResults.ParseResult.Reserved | src/main/java/de/leidenheit/infrastructure/parsing/ArazzoDeserializer.java:1420-1422 | the log becomes Reserved of the old log and the options are unchanged |
| ParseResults.ParseResult.Extra | src/main/java/de/leidenheit/infrastructure/parsing/ArazzoDeserializer.java:1424-1426 | the log becomes Extra of the old log and the options are unchanged |
| ParseResults.ParseResult.Missing | src/main/java/de/leidenheit/infrastructure/parsing/ArazzoDeserializer.java:1428-1430 | the log becomes Missing of the old log and the options are unchanged |
| ParseResults.ParseResult.Warning | src/main/java/de/leidenheit/infrastructure/parsing/ArazzoDeserializer.java:1432-1434 | the log becomes Warning of the old log and the options are unchanged |
| ParseResults.ParseResult.Unique | src/main/java/de/leidenheit/infrastructure/parsing/ArazzoDeserializer.java:1436-1438 | the log becomes Unique of the old log and the options are unchanged |
| ParseResults.ParseResult.InvalidType | src/main/java/de/leidenheit/infrastructure/parsing/ArazzoDeserializer.java:1440-1442 | the log becomes InvalidType of the old log and the options are unchanged |
| ParseResults.ParseResult.Invalid | src/main/java/de/leidenheit/infrastructure/parsing/ArazzoDeserializer.java:1444-1446 | the log becomes Invalid of the old log and the options are unchanged |
| ParseResults.ParseResult.GetMessages | src/main/java/de/leidenheit/infrastructure/parsing/ArazzoDeserializer.java:1449-1482 | the messages of the current log: one per extra key, then per invalid type, missing key, warning, repeated key and reserved key, each group in its own order |
| Deserialization.Dedup | src/main/java/de/leidenheit/infrastructure/parsing/ArazzoDeserializer.java:1192-1204 | each name of the input appears exactly once in the output, and no name that is not in the input |
| Deserialization.GetKeys | src/main/java/de/leidenheit/infrastructure/parsing/ArazzoDeserializer.java:1192-1204 | the keys are exactly the node's field names, each once |
| Deserialization.DedupOfDistinct | src/main/java/de/leidenheit/infrastructure/parsing/ArazzoDeserializer.java:1199-1201 | for names that are already distinct, the set keeps them all in the same order |
| Deserialization.KeysArePresent | src/main/java/de/leidenheit/infrastructure/parsing/ArazzoDeserializer.java:1192-1204 | every key names a field of the node |
| Deserialization.GetString | src/main/java/de/leidenheit/infrastructure/parsing/ArazzoDeserializer.java:1258-1284 | a scalar other than null gives its text and records nothing; a missing required key is recorded missing and makes the result invalid; a missing optional key and JSON null record nothing; a container records an invalid type "string" without raising the flag |
| Deserialization.GetUniqueString | src/main/java/de/leidenheit/infrastructure/parsing/ArazzoDeserializer.java:1276-1282 | gives the same value as getString; a value gets added to the set of ids seen; a value already in that set is recorded as repeated and makes the result invalid |
| Deserialization.StringField | src/main/java/de/leidenheit/infrastructure/parsing/ArazzoDeserializer.java:1258-1284 | the log is that of getString; a kept value is getString's value, and it is not blank unless empty strings are allowed |
| Deserialization.GetArray | src/main/java/de/leidenheit/infrastructure/parsing/ArazzoDeserializer.java:1169-1190 | an array value gives its items and records nothing; a missing required key is missing and invalid; any other value records an invalid type "array" |
| Deserialization.GetObject | src/main/java/de/leidenheit/infrastructure/parsing/ArazzoDeserializer.java:1218-1239 | an object value gives the object and records nothing; a missing required key is missing and invalid; any other value records an invalid type "object" |
| Deserialization.GetInteger | src/main/java/de/leidenheit/infrastructure/parsing/ArazzoDeserializer.java:1322-1338 | only a number that fits a 32-bit int gives a value; a missing required key is missing and invalid; a container records an invalid type "integer"; other scalars record nothing |
| Deserialization.GetBigDecimal | src/main/java/de/leidenheit/infrastructure/parsing/ArazzoDeserializer.java:1305-1320 | any number gives its value; a missing required key is missing and invalid; a container records an invalid type "double" |
| Deserialization.GetBoolean | src/main/java/de/leidenheit/infrastructure/parsing/ArazzoDeserializer.java:1286-1303 | a boolean gives itself; a string gives whether it equals "true" ignoring case; a present key records nothing |
| Deserialization.GetAnyType | src/main/java/de/leidenheit/infrastructure/parsing/ArazzoDeserializer.java:1340-1376 | the field is read unchanged and nothing is recorded |
| Deserialization.ReservedCheck | src/main/java/de/leidenheit/infrastructure/parsing/ArazzoDeserializer.java:1206-1216 | once the result is invalid it stays invalid after the reserved-prefix check |
| Deserialization.KeyCheck | src/main/java/de/leidenheit/infrastructure/parsing/ArazzoDeserializer.java:170-175 | once the result is invalid it stays invalid after checking one key |
| Deserialization.KeyChecks | src/main/java/de/leidenheit/infrastructure/parsing/ArazzoDeserializer.java:170-175 | once the result is invalid it stays invalid after the key loop |
| Deserialization.CheckKeys | src/main/java/de/leidenheit/infrastructure/parsing/ArazzoDeserializer.java:168-175 | once the result is invalid it stays invalid after checking a node's keys |
| Deserialization.KeyChecksRules | src/main/java/de/leidenheit/infrastructure/parsing/ArazzoDeserializer.java:168-175 | the key loop records every unexpected key that is not an extension as extra; it records every reserved key as reserved unless the author is the OpenAPI Initiative; it records nothing else and leaves every other part of the log unchanged |
| Deserialization.CheckKeysRules | src/main/java/de/leidenheit/infrastructure/parsing/ArazzoDeserializer.java:168-175 | for a whole node: its unexpected keys end up extra and its reserved keys reserved, and only the extra and reserved entries change |
| Deserialization.DirectExtensions | src/main/java/de/leidenheit/infrastructure/parsing/ArazzoDeserializer.java:1093-1104 | the extensions are exactly the node's `x-` fields with their values, and each name appears once |
| Deserialization.GetExtensions | src/main/java/de/leidenheit/infrastructure/parsing/ArazzoDeserializer.java:1073-1091 | the node's own `x-` fields when it has any; otherwise those of its `extensions` object; an `extensions` value that is not an object throws the failed cast |
| Deserialization.ExtensionsAreExtensionFields | src/main/java/de/leidenheit/infrastructure/parsing/ArazzoDeserializer.java:1073-1104 | every extension is an `x-` field of the node or of its `extensions` object, with that field's value, and each name appears once |
| Deserialization.CriterionTypeOf | src/main/java/de/leidenheit/infrastructure/parsing/ArazzoDeserializer.java:441 | a name that some criterion type has gives that type; an unknown name is the IllegalArgumentException of valueOf |
| Deserialization.SuccessActionTypeOf | src/main/java/de/leidenheit/infrastructure/parsing/ArazzoDeserializer.java:367 | a name that some success action type has gives that type; an unknown name is the IllegalArgumentException of valueOf |
| Deserialization.FailureActionTypeOf | src/main/java/de/leidenheit/infrastructure/parsing/ArazzoDeserializer.java:273 | a name that some failure action type has gives that type; an unknown name is the IllegalArgumentException of valueOf |
| Deserialization.ParameterInOf | src/main/java/de/leidenheit/infrastructure/parsing/ArazzoDeserializer.java:526 | a name that some parameter location has gives that location; an unknown name is the IllegalArgumentException of valueOf |
| Deserialization.SourceTypeOf | src/main/java/de/leidenheit/infrastructure/parsing/ArazzoDeserializer.java:1036 | a name that some source description type has gives that type; an unknown name is the IllegalArgumentException of valueOf |
| Deserialization.CriteriaField | src/main/java/de/leidenheit/infrastructure/parsing/ArazzoDeserializer.java:728-731 | once the result is invalid it stays invalid after reading a criteria array |
| Deserialization.SuccessActionsField | src/main/java/de/leidenheit/infrastructure/parsing/ArazzoDeserializer.java:733-736 | once the result is invalid it stays invalid after reading a success action array |
| Deserialization.FailureActionsField | src/main/java/de/leidenheit/infrastructure/parsing/ArazzoDeserializer.java:738-741 | once the result is invalid it stays invalid after reading a failure action array |
| Deserialization.ParametersField | src/main/java/de/leidenheit/infrastructure/parsing/ArazzoDeserializer.java:718-721 | once the result is invalid it stays invalid after reading a parameter array |
| Deserialization.OutputsField | src/main/java/de/leidenheit/infrastructure/parsing/ArazzoDeserializer.java:743-746 | once the result is invalid it stays invalid after reading outputs |
| Deserialization.GetCriterion | src/main/java/de/leidenheit/infrastructure/parsing/ArazzoDeserializer.java:422-479 | once the result is invalid it stays invalid after reading a criterion |
| Deserialization.CriteriaFrom | src/main/java/de/leidenheit/infrastructure/parsing/ArazzoDeserializer.java:404-420 | once the result is invalid it stays invalid after reading a criteria list |
| Deserialization.GetSuccessAction | src/main/java/de/leidenheit/infrastructure/parsing/ArazzoDeserializer.java:351-402 | once the result is invalid it stays invalid after reading a success action |
| Deserialization.GetFailureAction | src/main/java/de/leidenheit/infrastructure/parsing/ArazzoDeserializer.java:259-318 | once the result is invalid it stays invalid after reading a failure action |
| Deserialization.GetReusableObject | src/main/java/de/leidenheit/infrastructure/parsing/ArazzoDeserializer.java:843-870 | once the result is invalid it stays invalid after reading a reusable object |
| Deserialization.SuccessActionsFrom | src/main/java/de/leidenheit/infrastructure/parsing/ArazzoDeserializer.java:814-841 | once the result is invalid it stays invalid after reading a success action list |
| Deserialization.SuccessActionItem | src/main/java/de/leidenheit/infrastructure/parsing/ArazzoDeserializer.java:818-836 | once the result is invalid it stays invalid after reading one success action item, dereferenced or not |
| Deserialization.FailureActionsFrom | src/main/java/de/leidenheit/infrastructure/parsing/ArazzoDeserializer.java:784-812 | once the result is invalid it stays invalid after reading a failure action list |
| Deserialization.FailureActionItem | src/main/java/de/leidenheit/infrastructure/parsing/ArazzoDeserializer.java:788-807 | once the result is invalid it stays invalid after reading one failure action item, dereferenced or not |
| Deserialization.GetParameter | src/main/java/de/leidenheit/infrastructure/parsing/ArazzoDeserializer.java:512-551 | once the result is invalid it stays invalid after reading a parameter |
| Deserialization.ParametersFrom | src/main/java/de/leidenheit/infrastructure/parsing/ArazzoDeserializer.java:976-1005 | once the result is invalid it stays invalid after reading a parameter list |
| Deserialization.ParameterItem | src/main/java/de/leidenheit/infrastructure/parsing/ArazzoDeserializer.java:980-1000 | once the result is invalid it stays invalid after reading one parameter item, dereferenced or not |
| Deserialization.GetPayload | src/main/java/de/leidenheit/infrastructure/parsing/ArazzoDeserializer.java:911-923 | once the result is invalid it stays invalid after reading a payload |
| Deserialization.GetPayloadReplacement | src/main/java/de/leidenheit/infrastructure/parsing/ArazzoDeserializer.java:942-974 | once the result is invalid it stays invalid after reading a payload replacement |
| Deserialization.PayloadReplacementsFrom | src/main/java/de/leidenheit/infrastructure/parsing/ArazzoDeserializer.java:925-940 | once the result is invalid it stays invalid after reading a payload replacement list |
| Deserialization.RequestBodyField | src/main/java/de/leidenheit/infrastructure/parsing/ArazzoDeserializer.java:723-726 | once the result is invalid it stays invalid after reading a request body field |
| Deserialization.GetRequestBody | src/main/java/de/leidenheit/infrastructure/parsing/ArazzoDeserializer.java:872-909 | once the result is invalid it stays invalid after reading a request body |
| Deserialization.OutputsOver | src/main/java/de/leidenheit/infrastructure/parsing/ArazzoDeserializer.java:765-782 | the outputs are exactly the node's fields, each with its text |
| Deserialization.DependsOn | src/main/java/de/leidenheit/infrastructure/parsing/ArazzoDeserializer.java:1007-1017 | the list holds exactly the string items of the array |
| Deserialization.GetStep | src/main/java/de/leidenheit/infrastructure/parsing/ArazzoDeserializer.java:683-763 | once the result is invalid it stays invalid after reading a step |
| Deserialization.StepsFrom | src/main/java/de/leidenheit/infrastructure/parsing/ArazzoDeserializer.java:666-681 | once the result is invalid it stays invalid after reading a step list |
| Deserialization.DependsOnField | src/main/java/de/leidenheit/infrastructure/parsing/ArazzoDeserializer.java:619-622 | once the result is invalid it stays invalid after reading dependsOn |
| Deserialization.StepsField | src/main/java/de/leidenheit/infrastructure/parsing/ArazzoDeserializer.java:624-627 | once the result is invalid it stays invalid after reading steps |
| Deserialization.GetWorkflow | src/main/java/de/leidenheit/infrastructure/parsing/ArazzoDeserializer.java:588-664 | once the result is invalid it stays invalid after reading a workflow |
| Deserialization.WorkflowsFrom | src/main/java/de/leidenheit/infrastructure/parsing/ArazzoDeserializer.java:553-568 | once the result is invalid it stays invalid after reading a workflow list |
| Deserialization.GetSourceDescription | src/main/java/de/leidenheit/infrastructure/parsing/ArazzoDeserializer.java:1019-1071 | once the result is invalid it stays invalid after reading a source description |
| Deserialization.SourceDescriptionsFrom | src/main/java/de/leidenheit/infrastructure/parsing/ArazzoDeserializer.java:570-586 | once the result is invalid it stays invalid after reading a source description list |
| Deserialization.GetInfo | src/main/java/de/leidenheit/infrastructure/parsing/ArazzoDeserializer.java:1116-1159 | once the result is invalid it stays invalid after reading the info |
| Deserialization.KeyWarning | src/main/java/de/leidenheit/infrastructure/parsing/ArazzoDeserializer.java:236-243 | once the result is invalid it stays invalid after the name warning |
| Deserialization.SchemasFrom | src/main/java/de/leidenheit/infrastructure/parsing/ArazzoDeserializer.java:1378-1403 | once the result is invalid it stays invalid after reading schemas |
| Deserialization.NamedParametersFrom | src/main/java/de/leidenheit/infrastructure/parsing/ArazzoDeserializer.java:481-510 | once the result is invalid it stays invalid after reading a parameter map |
| Deserialization.NamedParameterEntry | src/main/java/de/leidenheit/infrastructure/parsing/ArazzoDeserializer.java:488-505 | once the result is invalid it stays invalid after reading one parameter map entry |
| Deserialization.NamedSuccessActionsFrom | src/main/java/de/leidenheit/infrastructure/parsing/ArazzoDeserializer.java:320-349 | once the result is invalid it stays invalid after reading a success action map |
| Deserialization.NamedSuccessActionEntry | src/main/java/de/leidenheit/infrastructure/parsing/ArazzoDeserializer.java:327-344 | once the result is invalid it stays invalid after reading one success action map entry |
| Deserialization.NamedFailureActionsFrom | src/main/java/de/leidenheit/infrastructure/parsing/ArazzoDeserializer.java:229-257 | once the result is invalid it stays invalid after reading a failure action map |
| Deserialization.NamedFailureActionEntry | src/main/java/de/leidenheit/infrastructure/parsing/ArazzoDeserializer.java:236-252 | once the result is invalid it stays invalid after reading one failure action map entry |
| Deserialization.InputsField | src/main/java/de/leidenheit/infrastructure/parsing/ArazzoDeserializer.java:192-195 | once the result is invalid it stays invalid after reading the components' inputs |
| Deserialization.NamedParametersField | src/main/java/de/leidenheit/infrastructure/parsing/ArazzoDeserializer.java:197-200 | once the result is invalid it stays invalid after reading the components' parameters |
| Deserialization.NamedSuccessActionsField | src/main/java/de/leidenheit/infrastructure/parsing/ArazzoDeserializer.java:202-205 | once the result is invalid it stays invalid after reading the components' success actions |
| Deserialization.NamedFailureActionsField | src/main/java/de/leidenheit/infrastructure/parsing/ArazzoDeserializer.java:207-210 | once the result is invalid it stays invalid after reading the components' failure actions |
| Deserialization.GetComponents | src/main/java/de/leidenheit/infrastructure/parsing/ArazzoDeserializer.java:184-227 | once the result is invalid it stays invalid after reading the components |
| Deserialization.ParseRoot | src/main/java/de/leidenheit/infrastructure/parsing/ArazzoDeserializer.java:123-182 | once the result is invalid it stays invalid after parseRoot |
| Deserialization.InfoField | src/main/java/de/leidenheit/infrastructure/parsing/ArazzoDeserializer.java:137-141 | once the result is invalid it stays invalid after reading the info field |
| Deserialization.SourcesField | src/main/java/de/leidenheit/infrastructure/parsing/ArazzoDeserializer.java:144-147 | once the result is invalid it stays invalid after reading the source descriptions field |
| Deserialization.WorkflowsField | src/main/java/de/leidenheit/infrastructure/parsing/ArazzoDeserializer.java:150-153 | once the result is invalid it stays invalid after reading the workflows field |
| Deserialization.ComponentsField | src/main/java/de/leidenheit/infrastructure/parsing/ArazzoDeserializer.java:156-160 | once the result is invalid it stays invalid after reading the components field |
| Deserialization.ParseDocument | src/main/java/de/leidenheit/infrastructure/parsing/ArazzoDeserializer.java:134-181 | once the result is invalid it stays invalid after reading the document, and the document carries the version it was given |
| ArazzoDeserializers.ArazzoDeserializer.constructor | src/main/java/de/leidenheit/infrastructure/parsing/ArazzoDeserializer.java:95-96 | a new deserializer holds the resolver and provider it is given and no workflow ids seen |
| ArazzoDeserializers.ArazzoDeserializer.GetString | src/main/java/de/leidenheit/infrastructure/parsing/ArazzoDeserializer.java:1258-1284 | the result and the new log of the ParseResult are those of Deserialization.GetString on the old log, and the options are unchanged |
| ArazzoDeserializers.ArazzoDeserializer.GetUniqueString | src/main/java/de/leidenheit/infrastructure/parsing/ArazzoDeserializer.java:1249-1284 | the result and the new log of the ParseResult are those of Deserialization.GetUniqueString, and the ids seen are those it tracks on the old log, and the options are unchanged |
| ArazzoDeserializers.ArazzoDeserializer.GetKeptString | src/main/java/de/leidenheit/infrastructure/parsing/ArazzoDeserializer.java:1249-1256 | the result and the new log of the ParseResult are those of Deserialization.StringField on the old log, and the options are unchanged |
| ArazzoDeserializers.ArazzoDeserializer.GetArray | src/main/java/de/leidenheit/infrastructure/parsing/ArazzoDeserializer.java:1169-1190 | the result and the new log of the ParseResult are those of Deserialization.GetArray on the old log, and the options are unchanged |
| ArazzoDeserializers.ArazzoDeserializer.GetObject | src/main/java/de/leidenheit/infrastructure/parsing/ArazzoDeserializer.java:1218-1239 | the result and the new log of the ParseResult are those of Deserialization.GetObject on the old log, and the options are unchanged |
| ArazzoDeserializers.ArazzoDeserializer.GetBoolean | src/main/java/de/leidenheit/infrastructure/parsing/ArazzoDeserializer.java:1286-1303 | the result and the new log of the ParseResult are those of Deserialization.GetBoolean on the old log, and the options are unchanged |
| ArazzoDeserializers.ArazzoDeserializer.GetBigDecimal | src/main/java/de/leidenheit/infrastructure/parsing/ArazzoDeserializer.java:1305-1320 | the result and the new log of the ParseResult are those of Deserialization.GetBigDecimal on the old log, and the options are unchanged |
| ArazzoDeserializers.ArazzoDeserializer.GetInteger | src/main/java/de/leidenheit/infrastructure/parsing/ArazzoDeserializer.java:1322-1338 | the result and the new log of the ParseResult are those of Deserialization.GetInteger on the old log, and the options are unchanged |
| ArazzoDeserializers.ArazzoDeserializer.GetAnyType | src/main/java/de/leidenheit/infrastructure/parsing/ArazzoDeserializer.java:1340-1376 | the result and the new log of the ParseResult are those of Deserialization.GetAnyType on the old log, and the options are unchanged |
| ArazzoDeserializers.ArazzoDeserializer.GetKeys | src/main/java/de/leidenheit/infrastructure/parsing/ArazzoDeserializer.java:1192-1204 | the loop returns exactly the node's keys as GetKeys gives them |
| ArazzoDeserializers.ArazzoDeserializer.ValidateReservedKeywords | src/main/java/de/leidenheit/infrastructure/parsing/ArazzoDeserializer.java:1206-1216 | the result and the new log of the ParseResult are those of Deserialization.ReservedCheck on the old log, and the options are unchanged |
| ArazzoDeserializers.ArazzoDeserializer.ValidateKeys | src/main/java/de/leidenheit/infrastructure/parsing/ArazzoDeserializer.java:168-175 | the result and the new log of the ParseResult are those of Deserialization.CheckKeys on the old log, and the options are unchanged |
| ArazzoDeserializers.ArazzoDeserializer.TryDirectExtensions | src/main/java/de/leidenheit/infrastructure/parsing/ArazzoDeserializer.java:1093-1104 | the loop returns exactly the node's direct extensions as TryDirect gives them |
| ArazzoDeserializers.ArazzoDeserializer.TryUnwrapLookupExtensions | src/main/java/de/leidenheit/infrastructure/parsing/ArazzoDeserializer.java:1081-1091 | an `extensions` object gives its direct extensions, an absent one none, and any other value throws the failed cast |
| ArazzoDeserializers.ArazzoDeserializer.GetExtensions | src/main/java/de/leidenheit/infrastructure/parsing/ArazzoDeserializer.java:1073-1079 | the result is GetExtensions of the node |
| ArazzoDeserializers.ArazzoDeserializer.GetCriterion | src/main/java/de/leidenheit/infrastructure/parsing/ArazzoDeserializer.java:422-479 | the result and the new log of the ParseResult are those of Deserialization.GetCriterion on the old log, and the options are unchanged |
| ArazzoDeserializers.ArazzoDeserializer.GetCriteriaList | src/main/java/de/leidenheit/infrastructure/parsing/ArazzoDeserializer.java:404-420 | the result and the new log of the ParseResult are those of Deserialization.CriteriaFrom on the old log, and the options are unchanged |
| ArazzoDeserializers.ArazzoDeserializer.GetCriteriaField | src/main/java/de/leidenheit/infrastructure/parsing/ArazzoDeserializer.java:728-731 | the result and the new log of the ParseResult are those of Deserialization.CriteriaField on the old log, and the options are unchanged |
| ArazzoDeserializers.ArazzoDeserializer.GetSuccessAction | src/main/java/de/leidenheit/infrastructure/parsing/ArazzoDeserializer.java:351-402 | the result and the new log of the ParseResult are those of Deserialization.GetSuccessAction on the old log, and the options are unchanged |
| ArazzoDeserializers.ArazzoDeserializer.GetFailureAction | src/main/java/de/leidenheit/infrastructure/parsing/ArazzoDeserializer.java:259-318 | the result and the new log of the ParseResult are those of Deserialization.GetFailureAction on the old log, and the options are unchanged |
| ArazzoDeserializers.ArazzoDeserializer.GetReusableObject | src/main/java/de/leidenheit/infrastructure/parsing/ArazzoDeserializer.java:843-870 | the result and the new log of the ParseResult are those of Deserialization.GetReusableObject on the old log, and the options are unchanged |
| ArazzoDeserializers.ArazzoDeserializer.GetSuccessActionItem | src/main/java/de/leidenheit/infrastructure/parsing/ArazzoDeserializer.java:818-836 | the result and the new log of the ParseResult are those of Deserialization.SuccessActionItem on the old log, and the options are unchanged |
| ArazzoDeserializers.ArazzoDeserializer.GetSuccessActionList | src/main/java/de/leidenheit/infrastructure/parsing/ArazzoDeserializer.java:814-841 | the result and the new log of the ParseResult are those of Deserialization.SuccessActionsFrom on the old log, and the options are unchanged |
| ArazzoDeserializers.ArazzoDeserializer.GetFailureActionItem | src/main/java/de/leidenheit/infrastructure/parsing/ArazzoDeserializer.java:788-807 | the result and the new log of the ParseResult are those of Deserialization.FailureActionItem on the old log, and the options are unchanged |
| ArazzoDeserializers.ArazzoDeserializer.GetFailureActionList | src/main/java/de/leidenheit/infrastructure/parsing/ArazzoDeserializer.java:784-812 | the result and the new log of the ParseResult are those of Deserialization.FailureActionsFrom on the old log, and the options are unchanged |
| ArazzoDeserializers.ArazzoDeserializer.GetSuccessActionsField | src/main/java/de/leidenheit/infrastructure/parsing/ArazzoDeserializer.java:733-736 | the result and the new log of the ParseResult are those of Deserialization.SuccessActionsField on the old log, and the options are unchanged |
| ArazzoDeserializers.ArazzoDeserializer.GetFailureActionsField | src/main/java/de/leidenheit/infrastructure/parsing/ArazzoDeserializer.java:738-741 | the result and the new log of the ParseResult are those of Deserialization.FailureActionsField on the old log, and the options are unchanged |
| ArazzoDeserializers.ArazzoDeserializer.GetParameter | src/main/java/de/leidenheit/infrastructure/parsing/ArazzoDeserializer.java:512-551 | the result and the new log of the ParseResult are those of Deserialization.GetParameter on the old log, and the options are unchanged |
| ArazzoDeserializers.ArazzoDeserializer.GetParameterItem | src/main/java/de/leidenheit/infrastructure/parsing/ArazzoDeserializer.java:980-1000 | the result and the new log of the ParseResult are those of Deserialization.ParameterItem on the old log, and the options are unchanged |
| ArazzoDeserializers.ArazzoDeserializer.GetParameterList | src/main/java/de/leidenheit/infrastructure/parsing/ArazzoDeserializer.java:976-1005 | the result and the new log of the ParseResult are those of Deserialization.ParametersFrom on the old log, and the options are unchanged |
| ArazzoDeserializers.ArazzoDeserializer.GetParametersField | src/main/java/de/leidenheit/infrastructure/parsing/ArazzoDeserializer.java:718-721 | the result and the new log of the ParseResult are those of Deserialization.ParametersField on the old log, and the options are unchanged |
| ArazzoDeserializers.ArazzoDeserializer.GetPlayload | src/main/java/de/leidenheit/infrastructure/parsing/ArazzoDeserializer.java:911-923 | the result and the new log of the ParseResult are those of Deserialization.GetPayload on the old log, and the options are unchanged |
| ArazzoDeserializers.ArazzoDeserializer.GetPayloadReplacementObject | src/main/java/de/leidenheit/infrastructure/parsing/ArazzoDeserializer.java:942-974 | the result and the new log of the ParseResult are those of Deserialization.GetPayloadReplacement on the old log, and the options are unchanged |
| ArazzoDeserializers.ArazzoDeserializer.GetPayloadReplacementObjectList | src/main/java/de/leidenheit/infrastructure/parsing/ArazzoDeserializer.java:925-940 | the result and the new log of the ParseResult are those of Deserialization.PayloadReplacementsFrom on the old log, and the options are unchanged |
| ArazzoDeserializers.ArazzoDeserializer.GetRequestBody | src/main/java/de/leidenheit/infrastructure/parsing/ArazzoDeserializer.java:872-909 | the result and the new log of the ParseResult are those of Deserialization.GetRequestBody on the old log, and the options are unchanged |
| ArazzoDeserializers.ArazzoDeserializer.GetRequestBodyField | src/main/java/de/leidenheit/infrastructure/parsing/ArazzoDeserializer.java:723-726 | the result and the new log of the ParseResult are those of Deserialization.RequestBodyField on the old log, and the options are unchanged |
| ArazzoDeserializers.ArazzoDeserializer.GetOutputs | src/main/java/de/leidenheit/infrastructure/parsing/ArazzoDeserializer.java:765-782 | the loop returns exactly the outputs GetOutputs gives, each field with its text |
| ArazzoDeserializers.ArazzoDeserializer.GetOutputsField | src/main/java/de/leidenheit/infrastructure/parsing/ArazzoDeserializer.java:743-746 | the result and the new log of the ParseResult are those of Deserialization.OutputsField on the old log, and the options are unchanged |
| ArazzoDeserializers.ArazzoDeserializer.GetDependsOnList | src/main/java/de/leidenheit/infrastructure/parsing/ArazzoDeserializer.java:1007-1017 | the loop returns exactly the string items, as DependsOn gives them |
| ArazzoDeserializers.ArazzoDeserializer.GetStep | src/main/java/de/leidenheit/infrastructure/parsing/ArazzoDeserializer.java:683-763 | the result and the new log of the ParseResult are those of Deserialization.GetStep on the old log, and the options are unchanged |
| ArazzoDeserializers.ArazzoDeserializer.GetStepsList | src/main/java/de/leidenheit/infrastructure/parsing/ArazzoDeserializer.java:666-681 | the result and the new log of the ParseResult are those of Deserialization.StepsFrom on the old log, and the options are unchanged |
| ArazzoDeserializers.ArazzoDeserializer.GetDependsOnField | src/main/java/de/leidenheit/infrastructure/parsing/ArazzoDeserializer.java:619-622 | the result and the new log of the ParseResult are those of Deserialization.DependsOnField on the old log, and the options are unchanged |
| ArazzoDeserializers.ArazzoDeserializer.GetStepsField | src/main/java/de/leidenheit/infrastructure/parsing/ArazzoDeserializer.java:624-627 | the result and the new log of the ParseResult are those of Deserialization.StepsField on the old log, and the options are unchanged |
| ArazzoDeserializers.ArazzoDeserializer.GetWorkflow | src/main/java/de/leidenheit/infrastructure/parsing/ArazzoDeserializer.java:588-664 | the result and the new log of the ParseResult are those of Deserialization.GetWorkflow, and the ids seen are those it tracks on the old log, and the options are unchanged |
| ArazzoDeserializers.ArazzoDeserializer.GetWorkflowList | src/main/java/de/leidenheit/infrastructure/parsing/ArazzoDeserializer.java:553-568 | the result and the new log of the ParseResult are those of Deserialization.WorkflowsFrom, and the ids seen are those it tracks on the old log, and the options are unchanged |
| ArazzoDeserializers.ArazzoDeserializer.GetSourceDescription | src/main/java/de/leidenheit/infrastructure/parsing/ArazzoDeserializer.java:1019-1071 | the result and the new log of the ParseResult are those of Deserialization.GetSourceDescription on the old log, and the options are unchanged |
| ArazzoDeserializers.ArazzoDeserializer.GetSourceDescriptionList | src/main/java/de/leidenheit/infrastructure/parsing/ArazzoDeserializer.java:570-586 | the result and the new log of the ParseResult are those of Deserialization.SourceDescriptionsFrom on the old log, and the options are unchanged |
| ArazzoDeserializers.ArazzoDeserializer.GetInfo | src/main/java/de/leidenheit/infrastructure/parsing/ArazzoDeserializer.java:1116-1159 | the result and the new log of the ParseResult are those of Deserialization.GetInfo on the old log, and the options are unchanged |
| ArazzoDeserializers.ArazzoDeserializer.GetSchemas | src/main/java/de/leidenheit/infrastructure/parsing/ArazzoDeserializer.java:1378-1403 | the result and the new log of the ParseResult are those of Deserialization.SchemasFrom on the old log, and the options are unchanged |
| ArazzoDeserializers.ArazzoDeserializer.GetParameterEntry | src/main/java/de/leidenheit/infrastructure/parsing/ArazzoDeserializer.java:488-505 | the result and the new log of the ParseResult are those of Deserialization.NamedParameterEntry on the old log, and the options are unchanged |
| ArazzoDeserializers.ArazzoDeserializer.GetSuccessActionEntry | src/main/java/de/leidenheit/infrastructure/parsing/ArazzoDeserializer.java:327-344 | the result and the new log of the ParseResult are those of Deserialization.NamedSuccessActionEntry on the old log, and the options are unchanged |
| ArazzoDeserializers.ArazzoDeserializer.GetFailureActionEntry | src/main/java/de/leidenheit/infrastructure/parsing/ArazzoDeserializer.java:236-252 | the result and the new log of the ParseResult are those of Deserialization.NamedFailureActionEntry on the old log, and the options are unchanged |
| ArazzoDeserializers.ArazzoDeserializer.AppendSuccessAction | src/main/java/de/leidenheit/infrastructure/parsing/ArazzoDeserializer.java:328-347 | reading the entry of one key and adding it to the map read so far leaves Deserialization.NamedSuccessActionsFrom unchanged: the old log at this key gives the new log at the next key with the grown map, or the entry's error; the options are unchanged |
| ArazzoDeserializers.ArazzoDeserializer.AppendFailureAction | src/main/java/de/leidenheit/infrastructure/parsing/ArazzoDeserializer.java:236-255 | reading the entry of one key and adding it to the map read so far leaves Deserialization.NamedFailureActionsFrom unchanged: the old log at this key gives the new log at the next key with the grown map, or the entry's error; the options are unchanged |
| ArazzoDeserializers.ArazzoDeserializer.GetParameters | src/main/java/de/leidenheit/infrastructure/parsing/ArazzoDeserializer.java:481-510 | the result and the new log of the ParseResult are those of Deserialization.NamedParametersFrom on the old log, and the options are unchanged |
| ArazzoDeserializers.ArazzoDeserializer.GetSuccessActions | src/main/java/de/leidenheit/infrastructure/parsing/ArazzoDeserializer.java:320-349 | the result and the new log of the ParseResult are those of Deserialization.NamedSuccessActionsFrom on the old log, and the options are unchanged |
| ArazzoDeserializers.ArazzoDeserializer.GetFailureActions | src/main/java/de/leidenheit/infrastructure/parsing/ArazzoDeserializer.java:229-257 | the result and the new log of the ParseResult are those of Deserialization.NamedFailureActionsFrom on the old log, and the options are unchanged |
| ArazzoDeserializers.ArazzoDeserializer.GetInputsField | src/main/java/de/leidenheit/infrastructure/parsing/ArazzoDeserializer.java:192-195 | the result and the new log of the ParseResult are those of Deserialization.InputsField on the old log, and the options are unchanged |
| ArazzoDeserializers.ArazzoDeserializer.GetParametersObjectField | src/main/java/de/leidenheit/infrastructure/parsing/ArazzoDeserializer.java:197-200 | the result and the new log of the ParseResult are those of Deserialization.NamedParametersField on the old log, and the options are unchanged |
| ArazzoDeserializers.ArazzoDeserializer.GetSuccessActionsObjectField | src/main/java/de/leidenheit/infrastructure/parsing/ArazzoDeserializer.java:202-205 | the result and the new log of the ParseResult are those of Deserialization.NamedSuccessActionsField on the old log, and the options are unchanged |
| ArazzoDeserializers.ArazzoDeserializer.GetFailureActionsObjectField | src/main/java/de/leidenheit/infrastructure/parsing/ArazzoDeserializer.java:207-210 | the result and the new log of the ParseResult are those of Deserialization.NamedFailureActionsField on the old log, and the options are unchanged |
| ArazzoDeserializers.ArazzoDeserializer.GetComponents | src/main/java/de/leidenheit/infrastructure/parsing/ArazzoDeserializer.java:184-227 | the result and the new log of the ParseResult are those of Deserialization.GetComponents on the old log, and the options are unchanged |
| ArazzoDeserializers.ArazzoDeserializer.ParseRoot | src/main/java/de/leidenheit/infrastructure/parsing/ArazzoDeserializer.java:123-182 | the result and the new log of the ParseResult are those of Deserialization.ParseRoot, and the ids seen are those it tracks on the old log, and the options are unchanged |
| ArazzoDeserializers.ArazzoDeserializer.GetInfoField | src/main/java/de/leidenheit/infrastructure/parsing/ArazzoDeserializer.java:137-141 | the result and the new log of the ParseResult are those of Deserialization.InfoField on the old log, and the options are unchanged |
| ArazzoDeserializers.ArazzoDeserializer.GetSourcesField | src/main/java/de/leidenheit/infrastructure/parsing/ArazzoDeserializer.java:144-147 | the result and the new log of the ParseResult are those of Deserialization.SourcesField on the old log, and the options are unchanged |
| ArazzoDeserializers.ArazzoDeserializer.GetWorkflowsField | src/main/java/de/leidenheit/infrastructure/parsing/ArazzoDeserializer.java:150-153 | the result and the new log of the ParseResult are those of Deserialization.WorkflowsField, and the ids seen are those it tracks on the old log, and the options are unchanged |
| ArazzoDeserializers.ArazzoDeserializer.GetComponentsField | src/main/java/de/leidenheit/infrastructure/parsing/ArazzoDeserializer.java:156-160 | the result and the new log of the ParseResult are those of Deserialization.ComponentsField on the old log, and the options are unchanged |
| ArazzoDeserializers.ArazzoDeserializer.ParseDocument | src/main/java/de/leidenheit/infrastructure/parsing/ArazzoDeserializer.java:134-181 | the result and the new log of the ParseResult are those of Deserialization.ParseDocument, and the ids seen are those it tracks on the old log, and the options are unchanged |
| DeserializationProperties.NonObjectRootGivesNothing | src/main/java/de/leidenheit/infrastructure/parsing/ArazzoDeserializer.java:176-180 | a root that is no object gives no document, records an invalid type "object" at arazzo.arazzo, makes the result invalid and reads no workflow ids |
| DeserializationProperties.MissingVersionGivesNothing | src/main/java/de/leidenheit/infrastructure/parsing/ArazzoDeserializer.java:129-133 | a root without `arazzo` gives no document, records the version as missing and makes the result invalid |
| DeserializationProperties.OtherVersionGivesNothing | src/main/java/de/leidenheit/infrastructure/parsing/ArazzoDeserializer.java:130-133 | a version whose text does not start with "1.0" gives no document and records nothing |
| DeserializationProperties.DocumentHasVersion | src/main/java/de/leidenheit/infrastructure/parsing/ArazzoDeserializer.java:126-134 | a document comes back only for an object root whose `arazzo` text starts with "1.0", and the document carries that text |
| DeserializationProperties.CriterionTypeRule | src/main/java/de/leidenheit/infrastructure/parsing/ArazzoDeserializer.java:438-462 | a criterion without a kept `type` is SIMPLE; one with a type has the constant its upper-cased text names; an unknown name throws the valueOf failure |
| DeserializationProperties.ParameterWithoutValueIsMissing | src/main/java/de/leidenheit/infrastructure/parsing/ArazzoDeserializer.java:512-551 | a parameter has no value exactly when the node has no `value` field, and then the value is recorded as missing |
| DeserializationProperties.RepeatedWorkflowId | src/main/java/de/leidenheit/infrastructure/parsing/ArazzoDeserializer.java:1276-1282 | a workflowId read a second time is recorded as not unique and makes the result invalid; its first reading adds it to the ids seen |
| InputsReaders.SetField | src/main/java/de/leidenheit/infrastructure/io/InputsReader.java:70-72 | setting a field gives it the new value and leaves every other field as it was; a new field goes last |
| InputsReaders.FilterJsonBySchema | src/main/java/de/leidenheit/infrastructure/io/InputsReader.java:64-78 | the loop builds exactly Filter of the schema and the data |
| InputsReaders.FilteredOverFields | src/main/java/de/leidenheit/infrastructure/io/InputsReader.java:64-78 | a field of the filtered object is exactly a schema name that the data also has, with the data's value |
| InputsReaders.FilteredOverOrder | src/main/java/de/leidenheit/infrastructure/io/InputsReader.java:67-73 | when the schema's names are distinct, the filtered fields come in schema order |
| InputsReaders.SetFieldNames | src/main/java/de/leidenheit/infrastructure/io/InputsReader.java:70-72 | setting a field adds its name to the object's names and no other name |
| InputsReaders.SetFieldKeepsDistinct | src/main/java/de/leidenheit/infrastructure/io/InputsReader.java:70-72 | setting a field never gives an object a second field of the same name, so `set` keeps names unique as an ObjectNode does |
| InputsReaders.FilteredOverDistinct | src/main/java/de/leidenheit/infrastructure/io/InputsReader.java:64-78 | the filtered object holds each field name once, whatever the schema |
| InputsReaders.FilterKeepsSharedFields | src/main/java/de/leidenheit/infrastructure/io/InputsReader.java:64-78 | the filtered node is an object holding exactly the fields that both schema and data have, each with the data's value unchanged, in schema order; fields only the data has are dropped and schema fields the data lacks are left out; it holds each field name once |
| InputsReaders.SharedNamesAre | src/main/java/de/leidenheit/infrastructure/io/InputsReader.java:67-73 | a name is among the shared ones exactly when the schema and the data both have it |
| InputsReaders.MapperIsJsonIff | src/main/java/de/leidenheit/infrastructure/io/InputsReader.java:99-104 | the JSON mapper is picked exactly when the first character of the text above ' ' is `{`; otherwise it is the YAML mapper |

## Left out

- HTTP transport is replaced by a `Host` parameter whose snapshot depends on the step and the call's index, not on the built request. This covers `makeRequest`, `findPathAndMethodByOperationId`, `extractPathAndMethodByOperationPath`, the RestAssured request specification and its logging filter. What `buildRequest` resolves, and what it writes into the memo, is modelled by `RequestFor`.
- StepExecutor.RunStep: the lookup of the path and method is part of the transport's reply, so the model runs it after the request is built. When both the lookup and the build fail, the model reports the build's failure and keeps the build's memo writes; the source reports the lookup's failure and has not built the request (RestAssuredStepExecutor.java:78-86).
- StepExecutor.RequestFor: RestAssured's own checks on the content type it is given, including a null `contentType` of a request body (RestAssuredStepExecutor.java:163, 167), are not modelled.
- `doWait` does not sleep. It rejects a negative time and records the requested number of seconds.
- Regular expressions, Jayway JSONPath, XPath over DOM, Jackson and XmlMapper parsing, JSON serialisation, content-type matching and URL validity are `Oracles` and `Hooks` function parameters. Nothing is assumed about them beyond what the model passes through them.
- Numbers are mathematical integers. `Double.compare` in `compareValues` becomes an integer comparison, `BigDecimal` values (retryAfter) are integers, and `BigDecimal.longValue` of a `Retry-After` header is read for a plain decimal only.
- Case folding (`toUpperCase`, `equalsIgnoreCase`, `compareToIgnoreCase`) is restricted to ASCII letters.
- The Retry-After override of a chosen RETRY action produces an updated action value. The model does not capture that the source writes it into the shared FailureAction object in place, nor that other holders of that object would see the change.
- The map of workflow outputs is ordered as declared. So are the outputs of a step, which `handleOutputs` walks with `forEach` (RestAssuredStepExecutor.java:328-345) and `PublishFrom`/`StepOutputs` take in declaration order. The source's HashMap iteration order is unspecified.
- `ArazzoDeserializer.deserialize`, and the outer ParseResult it wraps around `parseRoot`, are not part of this model. Neither is the `rootNode` field it stores the node in (ArazzoDeserializer.java:95, 101), which only `deserialize` reads, nor the unused `path` argument of `parseRoot`.
- URL resolution in `getSourceDescription` and `isValidURL` (java.net) is not modelled. The URL is kept as read.
- The extra map of a ParseResult keeps only its keys, because its values are never read again. Extension values are kept as JSON trees.
- The `ResolvedExpressionProvider` singleton is passed to the constructors instead of being fetched from a static field. The singleton holder itself is modelled by `ProviderHolder`.
- Recursion that the source bounds only by the size of the document is bounded by a `fuel` argument. This covers nested resolution (steps, workflows, resolveString), the executor's loop and nested workflow runs. Running out gives `OutOfFuel`, which the source has no counterpart for.
- ArazzoDeserializers.ArazzoDeserializer.constructor and ComponentsResolver.ComponentsReferenceResolver: the components reference resolver is passed in, built over a JSON node that is always present. The source builds its singleton from `rootNode.get("components")` (ArazzoDeserializer.java:794, 823, 984), which is Java null for a document without a `components` key. A `#/components` reference item in such a document then throws a NullPointerException at `componentsNode.at(pointer)` (ComponentsReferenceResolver.java:41). That null components node and its NullPointerException are not modelled: the model's node is always a JSON value, so the lookup goes on over it and ends in a node, the "JSON pointer into nowhere" error or an absent value.
- Model.Document and Model.Workflow: `sourceDescriptions`, `workflows` and `steps` are plain sequences, taken to be initialised to empty lists. The source sets them only from a non-empty array (ArazzoDeserializer.java:144-153, 628-631). Its Lombok model classes declare no initialiser, so the lists most likely stay null for a document without them. The source then throws a NullPointerException where it iterates them without a null check (ValidatorRegistry.java:50 and :55, StepValidator.java:139 and :150, WorkflowSorterUtils.java:30). The model iterates an empty sequence there instead.
- WorkflowValidator, SuccessActionValidator, CriterionExpressionTypeObjectValidator and ExtensionsValidator are not part of this model. Their reports are `Hooks` parameters.
- IOUtils.isValidFileOrUrl and JsonPointerOperationComparator are not part of this model; they are `Hooks` parameters.
- Criterion.java is not part of this model. A newly built criterion is taken to have no expression-type object, so the branch of `getCriterion` that reads `type` and `version` into that object never runs and is not modelled.
- Null checks that the model's types make unreachable, such as the non-object branch of `getOutputs`, have no counterpart.
- `InputsReader.readInputs`, `parseAndValidateInputs` and JSON-schema validation (everit) are file I/O and a third-party library. Parser.java and SourceDescriptionInitializer.java are file and URL I/O.
- The private helpers `resolveJsonObject` and `resolveJsonArray` of SpecExpressionResolver are unused by the source and are not modelled.
- Logging, concurrency and the `synchronized` keyword on the singletons' `getInstance` are not modelled.
- StepValidator.Identified: the stepId warning uses the corrected class `[A-Za-z0-9_-]`, not the class `[A-Za-z0-9_\\-]` the pattern at StepValidator.java:130 compiles to. So a stepId with a backslash, such as `a\b`, is warned about here but not by the source. The pattern as written is `IsRecommendedStepIdAsWritten`, and the difference is shown under "## Findings".
- StepValidator.StepIdRules: states the warning for the corrected class, for the same reason as StepValidator.Identified.
- ValidatorRegistries.FindValidator: CriterionValidator is matched with the corrected `SupportedClass`, so `findValidatorForObject` finds it for a Criterion. As written, `supports` tests `CriterionValidator.class.isAssignableFrom`, so the source finds no validator for a Criterion. `SupportedClassAsWritten` models the code as written, and the difference is shown under "## Findings". `validate` itself never hands a Criterion to the registry, so only a direct caller of `findValidatorForObject` or `validateObject` sees the difference.
- Model.StepJson, Model.WorkflowJson, Model.SourceDescriptionJson and the helpers from Model.OptStr to Model.RequestBodyJson: they stand for Jackson's `ObjectMapper.convertValue` of the model classes, whose code is not part of this model. They assume that each field becomes an object field under its Java name, in declaration order, and that an unset field is JSON null. They also assume that an enum is written by its constant name (such as "PATH" or "GOTO") and that `extensions` is a nested object. Only the `stepId`, `workflowId` and `name` fields are stated in their contracts; what `$steps.<id>.<path>`, `$workflows.<id>.<path>` and `$sourceDescriptions.<name>.<path>` read beyond those fields rests on this assumed shape.
- Json.JObj: an object is a sequence of fields, and `Lookup` returns the first field of a name. A Jackson ObjectNode holds each name once, and the last `put` wins. Objects the model builds keep names unique (`SetFieldKeepsDistinct`, `FilteredOverDistinct`), but parsed input trees are not required to.
- Where the Arazzo specification and the code disagree, the model follows the code. The two defects under "## Findings" are the exception: there the model uses the corrected behaviour, as the StepValidator.Identified and ValidatorRegistries.FindValidator lines say. The cases where the model follows the code:
  - `$outputs.` lookups find nothing, because the outputs map is never filled;
  - a JSONPATH criterion whose pointer reaches no node evaluates over "", not an error;
  - `resolveString` of a text without `{$` that resolves to null gives the text "null", not null;
  - the RETRY bound compares the count with the limit before incrementing it.
- ItarazzoExtension.java, ItarazzoDynamicTest.java and ItarazzoExtensionTest.java are JUnit integration and are not part of this model.
- Deserialization.ReservedCheck: its contract states only that an invalid result stays invalid. What it reads is given by its definition, which the ArazzoDeserializer methods are proved to follow, and by the DeserializationProperties lemmas.
- Deserialization.KeyCheck: its contract states only that an invalid result stays invalid. What it reads is given by its definition, which the ArazzoDeserializer methods are proved to follow, and by the DeserializationProperties lemmas.
- Deserialization.KeyChecks: its contract states only that an invalid result stays invalid. What it reads is given by its definition, which the ArazzoDeserializer methods are proved to follow, and by the DeserializationProperties lemmas.
- Deserialization.CheckKeys: its contract states only that an invalid result stays invalid. What it reads is given by its definition, which the ArazzoDeserializer methods are proved to follow, and by the DeserializationProperties lemmas.
- Deserialization.CriteriaField: its contract states only that an invalid result stays invalid. What it reads is given by its definition, which the ArazzoDeserializer methods are proved to follow, and by the DeserializationProperties lemmas.
- Deserialization.SuccessActionsField: its contract states only that an invalid result stays invalid. What it reads is given by its definition, which the ArazzoDeserializer methods are proved to follow, and by the DeserializationProperties lemmas.
- Deserialization.FailureActionsField: its contract states only that an invalid result stays invalid. What it reads is given by its definition, which the ArazzoDeserializer methods are proved to follow, and by the DeserializationProperties lemmas.
- Deserialization.ParametersField: its contract states only that an invalid result stays invalid. What it reads is given by its definition, which the ArazzoDeserializer methods are proved to follow, and by the DeserializationProperties lemmas.
- Deserialization.OutputsField: its contract states only that an invalid result stays invalid. What it reads is given by its definition, which the ArazzoDeserializer methods are proved to follow, and by the DeserializationProperties lemmas.
- Deserialization.GetCriterion: its contract states only that an invalid result stays invalid. What it reads is given by its definition, which the ArazzoDeserializer methods are proved to follow, and by the DeserializationProperties lemmas.
- Deserialization.CriteriaFrom: its contract states only that an invalid result stays invalid. What it reads is given by its definition, which the ArazzoDeserializer methods are proved to follow, and by the DeserializationProperties lemmas.
- Deserialization.GetSuccessAction: its contract states only that an invalid result stays invalid. What it reads is given by its definition, which the ArazzoDeserializer methods are proved to follow, and by the DeserializationProperties lemmas.
- Deserialization.GetFailureAction: its contract states only that an invalid result stays invalid. What it reads is given by its definition, which the ArazzoDeserializer methods are proved to follow, and by the DeserializationProperties lemmas.
- Deserialization.GetReusableObject: its contract states only that an invalid result stays invalid. What it reads is given by its definition, which the ArazzoDeserializer methods are proved to follow, and by the DeserializationProperties lemmas.
- Deserialization.SuccessActionsFrom: its contract states only that an invalid result stays invalid. What it reads is given by its definition, which the ArazzoDeserializer methods are proved to follow, and by the DeserializationProperties lemmas.
- Deserialization.SuccessActionItem: its contract states only that an invalid result stays invalid. What it reads is given by its definition, which the ArazzoDeserializer methods are proved to follow, and by the DeserializationProperties lemmas.
- Deserialization.FailureActionsFrom: its contract states only that an invalid result stays invalid. What it reads is given by its definition, which the ArazzoDeserializer methods are proved to follow, and by the DeserializationProperties lemmas.
- Deserialization.FailureActionItem: its contract states only that an invalid result stays invalid. What it reads is given by its definition, which the ArazzoDeserializer methods are proved to follow, and by the DeserializationProperties lemmas.
- Deserialization.GetParameter: its contract states only that an invalid result stays invalid. What it reads is given by its definition, which the ArazzoDeserializer methods are proved to follow, and by the DeserializationProperties lemmas.
- Deserialization.ParametersFrom: its contract states only that an invalid result stays invalid. What it reads is given by its definition, which the ArazzoDeserializer methods are proved to follow, and by the DeserializationProperties lemmas.
- Deserialization.ParameterItem: its contract states only that an invalid result stays invalid. What it reads is given by its definition, which the ArazzoDeserializer methods are proved to follow, and by the DeserializationProperties lemmas.
- Deserialization.GetPayload: its contract states only that an invalid result stays invalid. What it reads is given by its definition, which the ArazzoDeserializer methods are proved to follow, and by the DeserializationProperties lemmas.
- Deserialization.GetPayloadReplacement: its contract states only that an invalid result stays invalid. What it reads is given by its definition, which the ArazzoDeserializer methods are proved to follow, and by the DeserializationProperties lemmas.
- Deserialization.PayloadReplacementsFrom: its contract states only that an invalid result stays invalid. What it reads is given by its definition, which the ArazzoDeserializer methods are proved to follow, and by the DeserializationProperties lemmas.
- Deserialization.RequestBodyField: its contract states only that an invalid result stays invalid. What it reads is given by its definition, which the ArazzoDeserializer methods are proved to follow, and by the DeserializationProperties lemmas.
- Deserialization.GetRequestBody: its contract states only that an invalid result stays invalid. What it reads is given by its definition, which the ArazzoDeserializer methods are proved to follow, and by the DeserializationProperties lemmas.
- Deserialization.GetStep: its contract states only that an invalid result stays invalid. What it reads is given by its definition, which the ArazzoDeserializer methods are proved to follow, and by the DeserializationProperties lemmas.
- Deserialization.StepsFrom: its contract states only that an invalid result stays invalid. What it reads is given by its definition, which the ArazzoDeserializer methods are proved to follow, and by the DeserializationProperties lemmas.
- Deserialization.DependsOnField: its contract states only that an invalid result stays invalid. What it reads is given by its definition, which the ArazzoDeserializer methods are proved to follow, and by the DeserializationProperties lemmas.
- Deserialization.StepsField: its contract states only that an invalid result stays invalid. What it reads is given by its definition, which the ArazzoDeserializer methods are proved to follow, and by the DeserializationProperties lemmas.
- Deserialization.GetWorkflow: its contract states only that an invalid result stays invalid. What it reads is given by its definition, which the ArazzoDeserializer methods are proved to follow, and by the DeserializationProperties lemmas.
- Deserialization.WorkflowsFrom: its contract states only that an invalid result stays invalid. What it reads is given by its definition, which the ArazzoDeserializer methods are proved to follow, and by the DeserializationProperties lemmas.
- Deserialization.GetSourceDescription: its contract states only that an invalid result stays invalid. What it reads is given by its definition, which the ArazzoDeserializer methods are proved to follow, and by the DeserializationProperties lemmas.
- Deserialization.SourceDescriptionsFrom: its contract states only that an invalid result stays invalid. What it reads is given by its definition, which the ArazzoDeserializer methods are proved to follow, and by the DeserializationProperties lemmas.
- Deserialization.GetInfo: its contract states only that an invalid result stays invalid. What it reads is given by its definition, which the ArazzoDeserializer methods are proved to follow, and by the DeserializationProperties lemmas.
- Deserialization.KeyWarning: its contract states only that an invalid result stays invalid. What it reads is given by its definition, which the ArazzoDeserializer methods are proved to follow, and by the DeserializationProperties lemmas.
- Deserialization.SchemasFrom: its contract states only that an invalid result stays invalid. What it reads is given by its definition, which the ArazzoDeserializer methods are proved to follow, and by the DeserializationProperties lemmas.
- Deserialization.NamedParametersFrom: its contract states only that an invalid result stays invalid. What it reads is given by its definition, which the ArazzoDeserializer methods are proved to follow, and by the DeserializationProperties lemmas.
- Deserialization.NamedParameterEntry: its contract states only that an invalid result stays invalid. What it reads is given by its definition, which the ArazzoDeserializer methods are proved to follow, and by the DeserializationProperties lemmas.
- Deserialization.NamedSuccessActionsFrom: its contract states only that an invalid result stays invalid. What it reads is given by its definition, which the ArazzoDeserializer methods are proved to follow, and by the DeserializationProperties lemmas.
- Deserialization.NamedSuccessActionEntry: its contract states only that an invalid result stays invalid. What it reads is given by its definition, which the ArazzoDeserializer methods are proved to follow, and by the DeserializationProperties lemmas.
- Deserialization.NamedFailureActionsFrom: its contract states only that an invalid result stays invalid. What it reads is given by its definition, which the ArazzoDeserializer methods are proved to follow, and by the DeserializationProperties lemmas.
- Deserialization.NamedFailureActionEntry: its contract states only that an invalid result stays invalid. What it reads is given by its definition, which the ArazzoDeserializer methods are proved to follow, and by the DeserializationProperties lemmas.
- Deserialization.InputsField: its contract states only that an invalid result stays invalid. What it reads is given by its definition, which the ArazzoDeserializer methods are proved to follow, and by the DeserializationProperties lemmas.
- Deserialization.NamedParametersField: its contract states only that an invalid result stays invalid. What it reads is given by its definition, which the ArazzoDeserializer methods are proved to follow, and by the DeserializationProperties lemmas.
- Deserialization.NamedSuccessActionsField: its contract states only that an invalid result stays invalid. What it reads is given by its definition, which the ArazzoDeserializer methods are proved to follow, and by the DeserializationProperties lemmas.
- Deserialization.NamedFailureActionsField: its contract states only that an invalid result stays invalid. What it reads is given by its definition, which the ArazzoDeserializer methods are proved to follow, and by the DeserializationProperties lemmas.
- Deserialization.GetComponents: its contract states only that an invalid result stays invalid. What it reads is given by its definition, which the ArazzoDeserializer methods are proved to follow, and by the DeserializationProperties lemmas.
- Deserialization.ParseRoot: its contract states only that an invalid result stays invalid. What it reads is given by its definition, which the ArazzoDeserializer methods are proved to follow, and by the DeserializationProperties lemmas.
- Deserialization.InfoField: its contract states only that an invalid result stays invalid. What it reads is given by its definition, which the ArazzoDeserializer methods are proved to follow, and by the DeserializationProperties lemmas.
- Deserialization.SourcesField: its contract states only that an invalid result stays invalid. What it reads is given by its definition, which the ArazzoDeserializer methods are proved to follow, and by the DeserializationProperties lemmas.
- Deserialization.WorkflowsField: its contract states only that an invalid result stays invalid. What it reads is given by its definition, which the ArazzoDeserializer methods are proved to follow, and by the DeserializationProperties lemmas.
- Deserialization.ComponentsField: its contract states only that an invalid result stays invalid. What it reads is given by its definition, which the ArazzoDeserializer methods are proved to follow, and by the DeserializationProperties lemmas.
- Deserialization.ParseDocument: its contract states only that an invalid result stays invalid. What it reads is given by its definition, which the ArazzoDeserializer methods are proved to follow, and by the DeserializationProperties lemmas.

## Findings

| source | as written | input that shows it | evidently intended | confidence | as-written member | corrected member |
|---|---|---|---|---|---|---|
| src/main/java/de/leidenheit/infrastructure/validation/validators/StepValidator.java:129-131 | the stepId pattern `^[A-Za-z0-9_\\-]+$`, written with a doubled backslash inside a Java string, puts a literal backslash into the character class | the stepId `a\b` passes the check without the warning | letters, digits, `_` and `-` only, as the warning message says | not executed | StepValidator.AsWrittenAcceptsBackslash | StepValidator.RecommendedStepIdRefusesBackslash |
| src/main/java/de/leidenheit/infrastructure/validation/validators/CriterionValidator.java:91-94 | `supports` tests `CriterionValidator.class.isAssignableFrom(clazz)`, so the validator supports only itself | a Criterion handed to the registry finds no validator and is never checked | `Criterion.class.isAssignableFrom(clazz)` | not executed | ValidatorRegistries.AsWrittenNoCriterionValidator | ValidatorRegistries.OneBuiltinPerClass |
