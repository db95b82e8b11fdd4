/** CriterionEvaluator: decides a Criterion Object against the current
  * resolver context.  SIMPLE conditions are split around their comparison
  * operator and the two operands resolved and compared; REGEX, JSONPATH and
  * XPATH conditions go through the library calls of `Oracles`, JSONPATH
  * building a SIMPLE condition of its own from what it extracts. */
module CriterionEvaluator {
  import opened Wrappers
  import opened Strings
  import opened Json
  import opened Values
  import opened Model
  import opened ExpressionCache
  import opened SpecResolver

  // ----- operators -----------------------------------------------------------------

  datatype Op = Eq | Ne | Le | Ge | Lt | Gt

  function OpText(op: Op): (r: string)
    ensures 1 <= |r| <= 2 && IsOpChar(r[0])
  {
    match op
      case Eq => "=="
      case Ne => "!="
      case Le => "<="
      case Ge => ">="
      case Lt => "<"
      case Gt => ">"
  }

  /** The alternatives of `==|!=|<=|>=|<|>`, in the order the regex tries them. */
  const Operators: seq<Op> := [Eq, Ne, Le, Ge, Lt, Gt]

  predicate IsOpChar(c: char) {
    c == '=' || c == '!' || c == '<' || c == '>'
  }

  /** No character of the text can start an operator. */
  predicate OpFree(s: string) {
    forall i :: 0 <= i < |s| ==> !IsOpChar(s[i])
  }

  /** The operator's text occurs at `i`, compared character by character. */
  predicate OpOccursAt(s: string, op: Op, i: nat) {
    var t := OpText(op);
    i + |t| <= |s| && s[i] == t[0] && (|t| == 2 ==> s[i + 1] == t[1])
  }

  lemma OpOccursAtIff(s: string, op: Op, i: nat)
    ensures OpOccursAt(s, op, i) <==> OccursAt(s, OpText(op), i)
  {
    var t := OpText(op);
    if i + |t| <= |s| {
      assert s[i..i + |t|][0] == s[i];
      assert |t| == 2 ==> s[i..i + |t|][1] == s[i + 1];
    }
  }

  /** The alternative the operator regex matches at `i`, if any. */
  function OpAt(s: string, i: nat): (r: Option<Op>)
    ensures r.Some? ==> OpOccursAt(s, r.value, i)
  {
    if OpOccursAt(s, Eq, i) then Some(Eq)
    else if OpOccursAt(s, Ne, i) then Some(Ne)
    else if OpOccursAt(s, Le, i) then Some(Le)
    else if OpOccursAt(s, Ge, i) then Some(Ge)
    else if OpOccursAt(s, Lt, i) then Some(Lt)
    else if OpOccursAt(s, Gt, i) then Some(Gt)
    else None
  }

  /** The pieces between operator matches, scanning left to right from `i`
    * with the current piece starting at `from`. */
  function SplitFrom(s: string, from: nat, i: nat): (r: seq<string>)
    requires from <= i <= |s|
    ensures |r| >= 1
    decreases |s| - i
  {
    if i == |s| then [s[from..]]
    else
      match OpAt(s, i)
        case None => SplitFrom(s, from, i + 1)
        case Some(op) => [s[from..i]] + SplitFrom(s, i + |OpText(op)|, i + |OpText(op)|)
  }

  /** condition.split("==|!=|<=|>=|<|>"): the whole text when nothing
    * matches, otherwise the pieces without the trailing empty ones. */
  function SplitOps(s: string): seq<string> {
    var pieces := SplitFrom(s, 0, 0);
    if |pieces| == 1 then pieces else DropTrailingEmpty(pieces)
  }

  /** The operator tests of evaluateLogicalExpression, in their order. */
  function FirstContained(condition: string): Option<Op> {
    if Contains(condition, "==") then Some(Eq)
    else if Contains(condition, "!=") then Some(Ne)
    else if Contains(condition, "<=") then Some(Le)
    else if Contains(condition, ">=") then Some(Ge)
    else if Contains(condition, "<") then Some(Lt)
    else if Contains(condition, ">") then Some(Gt)
    else None
  }

  /** The operator applied to a comparison result and 0. */
  predicate Holds(op: Op, c: int) {
    match op
      case Eq => c == 0
      case Ne => c != 0
      case Le => c <= 0
      case Ge => c >= 0
      case Lt => c < 0
      case Gt => c > 0
  }

  // ----- compareValues -------------------------------------------------------------

  function Incomparable(o: Oracles, l: Value, r: Value): Failure {
    IllegalArgument("Incomparable types: " + Show(o, l) + " and " + Show(o, r))
  }

  /** Numbers by value (Double.compare's -1, 0, 1), strings ignoring case,
    * null against the text "null" as equal, anything else an error. */
  function CompareValues(o: Oracles, l: Value, r: Value): Result<int> {
    if l.Num? && r.Num? then Ok(if l.n < r.n then -1 else if l.n > r.n then 1 else 0)
    else if l.Str? && r.Str? then Ok(CompareIgnoreCase(l.s, r.s))
    else if l.Null? && r == Str("null") then Ok(0)
    else Err(Incomparable(o, l, r))
  }

  // ----- SIMPLE --------------------------------------------------------------------

  function InvalidFormat(condition: string): Failure {
    IllegalArgument("Invalid simple condition format: " + condition)
  }

  /** The decision once both operands are resolved. */
  function Decide(o: Oracles, condition: string, l: Value, r: Value): Result<bool> {
    match FirstContained(condition)
      case None => Err(Unsupported("Unsupported operator in condition: " + condition))
      case Some(op) =>
        match CompareValues(o, l, r)
          case Err(e) => Err(e)
          case Ok(c) => Ok(Holds(op, c))
  }

  /** evaluateLogicalExpression: both trimmed operands are resolved, left first. */
  function Logical(env: Env, fuel: nat, cache: Cache, condition: string, context: Context): Out<bool> {
    var parts := SplitOps(condition);
    if |parts| != 2 then Out(Err(InvalidFormat(condition)), cache)
    else
      var left := Resolve(env, fuel, cache, Trim(parts[0]), context);
      if left.res.Err? then Out(Err(left.res.error), left.cache)
      else
        var right := Resolve(env, fuel, left.cache, Trim(parts[1]), context);
        if right.res.Err? then Out(Err(right.res.error), right.cache)
        else Out(Decide(env.o, condition, left.res.value, right.res.value), right.cache)
  }

  /** evaluateSimpleCondition. */
  function Simple(env: Env, fuel: nat, cache: Cache, condition: Option<string>, context: Context): Out<bool> {
    if condition.None? then Out(Err(NullReference("criterion condition")), cache)
    else Logical(env, fuel, cache, condition.value, context)
  }

  // ----- the context of REGEX, JSONPATH and XPATH --------------------------------

  function NotAString(criterionContext: string): Failure {
    IllegalState("Expected resolved context '" + criterionContext + "' to be a string but was not")
  }

  /** resolveCriterionContext: the context expression must resolve to a String. */
  function ContextText(env: Env, fuel: nat, cache: Cache, criterionContext: Option<string>, context: Context)
    : Out<string>
  {
    if criterionContext.None? then Out(Err(NullReference("criterion context")), cache)
    else
      var out := Resolve(env, fuel, cache, criterionContext.value, context);
      if out.res.Err? then Out(Err(out.res.error), out.cache)
      else if out.res.value.Str? then Out(Ok(out.res.value.s), out.cache)
      else Out(Err(NotAString(criterionContext.value)), out.cache)
  }

  /** evaluateRegex: String.matches, the whole text against the condition. */
  function RegexCriterion(env: Env, fuel: nat, cache: Cache, c: Criterion, context: Context): Out<bool> {
    var text := ContextText(env, fuel, cache, c.context, context);
    if text.res.Err? then Out(Err(text.res.error), text.cache)
    else if c.condition.None? then Out(Err(NullReference("criterion condition")), text.cache)
    else
      match env.o.regexMatches(text.res.value, c.condition.value)
        case None => Out(Err(Foreign("PatternSyntaxException")), text.cache)
        case Some(b) => Out(Ok(b), text.cache)
  }

  /** evaluateXPath: a BOOLEAN XPath evaluation; every failure, a null
    * condition included, is wrapped in one error. */
  function XPathCriterion(env: Env, fuel: nat, cache: Cache, c: Criterion, context: Context): Out<bool> {
    var text := ContextText(env, fuel, cache, c.context, context);
    if text.res.Err? then Out(Err(text.res.error), text.cache)
    else
      var b := if c.condition.None? then None else env.o.xpathBool(text.res.value, c.condition.value);
      if b.None? then Out(Err(IllegalState("Error while evaluating XPath expression")), text.cache)
      else Out(Ok(b.value), text.cache)
  }

  // ----- the JSONPATH condition patterns -------------------------------------------

  /** The characters `.` does not match without DOTALL. */
  predicate IsLineTerminator(c: char) {
    c == '\n' || c == '\r' || c == '\U{85}' || c == '\U{2028}' || c == '\U{2029}'
  }

  /** The end of the run of `\s` characters from `i`. */
  function SkipSpaces(s: string, i: nat): (j: nat)
    requires i <= |s|
    ensures i <= j <= |s| && (j == |s| || !IsRegexSpace(s[j]))
    decreases |s| - i
  {
    if i < |s| && IsRegexSpace(s[i]) then SkipSpaces(s, i + 1) else i
  }

  /** The end of the run of characters `.` matches from `i`. */
  function LineEnd(s: string, i: nat): (j: nat)
    requires i <= |s|
    ensures i <= j <= |s| && (j == |s| || IsLineTerminator(s[j]))
    decreases |s| - i
  {
    if i < |s| && !IsLineTerminator(s[i]) then LineEnd(s, i + 1) else i
  }

  /** The end of the run of `[^ ]` characters from `i`. */
  function NonSpaceEnd(s: string, i: nat): (j: nat)
    requires i <= |s|
    ensures i <= j <= |s| && (j == |s| || s[j] == ' ')
    decreases |s| - i
  {
    if i < |s| && s[i] != ' ' then NonSpaceEnd(s, i + 1) else i
  }

  /** The run of non-space characters from `i` ends at the first space. */
  lemma {:induction false} NonSpaceEndAt(s: string, i: nat, j: nat)
    requires i <= j <= |s| && (j == |s| || s[j] == ' ')
    requires forall k :: i <= k < j ==> s[k] != ' '
    ensures NonSpaceEnd(s, i) == j
    decreases j - i
  {
    if i < j {
      NonSpaceEndAt(s, i + 1, j);
    }
  }

  /** The run `.` matches from `i` ends at the first line terminator. */
  lemma {:induction false} LineEndAt(s: string, i: nat, j: nat)
    requires i <= j <= |s| && (j == |s| || IsLineTerminator(s[j]))
    requires forall k :: i <= k < j ==> !IsLineTerminator(s[k])
    ensures LineEnd(s, i) == j
    decreases j - i
  {
    if i < j {
      LineEndAt(s, i + 1, j);
    }
  }

  /** `(?<expected>.+)` tried from `j` down to `q`, the positions the greedy
    * `\s*` before it can give back. */
  function ExpectedAt(s: string, q: nat, j: nat): Option<string>
    requires q <= j <= |s|
    decreases j
  {
    if j < |s| && !IsLineTerminator(s[j]) then Some(s[j..LineEnd(s, j)])
    else if j == q then None
    else ExpectedAt(s, q, j - 1)
  }

  /** `\s*(?<expected>.+)` at `q`. */
  function Trailer(s: string, q: nat): Option<string>
    requires q <= |s|
  {
    ExpectedAt(s, q, SkipSpaces(s, q))
  }

  /** The operator group at `p`: the first alternative, from the `k`-th on,
    * after which the rest of the pattern matches. */
  function OperatorFrom(s: string, p: nat, k: nat): Option<(Op, string)>
    requires k <= |Operators|
    decreases |Operators| - k
  {
    if k == |Operators| then None
    else
      var op := Operators[k];
      if OpOccursAt(s, op, p) && Trailer(s, p + |OpText(op)|).Some? then
        Some((op, Trailer(s, p + |OpText(op)|).value))
      else OperatorFrom(s, p, k + 1)
  }

  /** `\s*(?<operator>…)\s*(?<expected>.+)` right after a group ending at `e`. */
  function TailAt(s: string, e: nat): Option<(Op, string)>
    requires e <= |s|
  {
    OperatorFrom(s, SkipSpaces(s, e), 0)
  }

  datatype Match = Match(group: string, op: Op, expected: string)

  /** The greedy group `X[^ ]+` starting at `g`, tried from its longest
    * extent `e` down to two characters. */
  function GroupFrom(s: string, g: nat, e: nat): Option<Match>
    requires g <= e <= |s|
    decreases e
  {
    if e < g + 2 then None
    else
      match TailAt(s, e)
        case Some((op, x)) => Some(Match(s[g..e], op, x))
        case None => GroupFrom(s, g, e - 1)
  }

  /** The two condition patterns: `#(?<ptr>/[^ ]+)…` and `(?<query>[$][^ ]+)…`. */
  datatype Pattern = PointerPattern | QueryPattern

  function PatternText(p: Pattern): string {
    match p
      case PointerPattern => "#(?<ptr>/[^ ]+)\\s*(?<operator>==|!=|<=|>=|<|>)\\s*(?<expected>.+)"
      case QueryPattern => "(?<query>[$][^ ]+)\\s*(?<operator>==|!=|<=|>=|<|>)\\s*(?<expected>.+)"
  }

  /** Where the group starts when a match is tried at `k`. */
  function GroupStart(p: Pattern, s: string, k: nat): (g: Option<nat>)
    requires k < |s|
    ensures g.Some? ==> g.value < |s|
  {
    match p
      case PointerPattern => if s[k] == '#' && k + 1 < |s| && s[k + 1] == '/' then Some(k + 1) else None
      case QueryPattern => if s[k] == '$' then Some(k) else None
  }

  /** Matcher.find from `k`: the first start position with a match. */
  function FindFrom(p: Pattern, s: string, k: nat): Option<Match>
    decreases |s| - k
  {
    if k >= |s| then None
    else
      match GroupStart(p, s, k)
        case None => FindFrom(p, s, k + 1)
        case Some(g) =>
          match GroupFrom(s, g, NonSpaceEnd(s, g + 1))
            case Some(m) => Some(m)
            case None => FindFrom(p, s, k + 1)
  }

  function PatternFailed(p: Pattern, condition: string): Failure {
    IllegalState("Pattern matching failed: input='" + condition + "' pattern='" + PatternText(p) + "'")
  }

  // ----- JSONPATH ------------------------------------------------------------------

  /** `String.format("%s %s %s", actual, operator, expected)`. */
  function Synthesised(actual: string, op: Op, expected: string): string {
    actual + " " + OpText(op) + " " + expected
  }

  /** evaluateJsonPath: the context text is parsed as JSON; a condition
    * starting with `#/` is a JSON Pointer comparison, any other a JSONPath
    * query comparison; either way the value found, the operator and the
    * resolved expected text become a SIMPLE condition. */
  function JsonPathCriterion(env: Env, fuel: nat, cache: Cache, c: Criterion, context: Context): Out<bool> {
    var text := ContextText(env, fuel, cache, c.context, context);
    if text.res.Err? then Out(Err(text.res.error), text.cache)
    else
      var parsed := env.o.parseJson(text.res.value);
      if parsed.None? then Out(Err(IllegalState("JsonProcessingException")), text.cache)
      else if c.condition.None? then Out(Err(NullReference("criterion condition")), text.cache)
      else
        var condition := c.condition.value;
        if StartsWith(condition, "#/") then
          PointerComparison(env, fuel, text.cache, parsed.value, condition, context)
        else
          QueryComparison(env, fuel, text.cache, parsed.value, condition, context)
  }

  function PointerComparison(env: Env, fuel: nat, cache: Cache, json: Json, condition: string, context: Context)
    : Out<bool>
  {
    match FindFrom(PointerPattern, condition, 0)
      case None => Out(Err(PatternFailed(PointerPattern, condition)), cache)
      case Some(m) =>
        match At(json, m.group)
          case Err(e) => Out(Err(e), cache)
          case Ok(node) =>
            // a pointer into nowhere is the MissingNode, whose text is empty
            var actual := if node.Some? then AsText(node.value) else "";
            var expected := ResolveText(env, fuel, cache, m.expected);
            if expected.res.Err? then Out(Err(expected.res.error), expected.cache)
            else Simple(env, fuel, expected.cache, Some(Synthesised(actual, m.op, expected.res.value)), context)
  }

  function QueryComparison(env: Env, fuel: nat, cache: Cache, json: Json, condition: string, context: Context)
    : Out<bool>
  {
    match FindFrom(QueryPattern, condition, 0)
      case None => Out(Err(PatternFailed(QueryPattern, condition)), cache)
      case Some(m) =>
        var expected := ResolveText(env, fuel, cache, m.expected);
        if expected.res.Err? then Out(Err(expected.res.error), expected.cache)
        else
          match env.o.jsonPathRead(env.o.writeJson(json), m.group)
            case None => Out(Err(Foreign("JsonPath")), expected.cache)
            case Some(Null) =>
              Out(Err(IllegalState("Tried to read node value for query " + m.group + " but got null")), expected.cache)
            case Some(v) =>
              Simple(env, fuel, expected.cache, Some(Synthesised(Show(env.o, v), m.op, expected.res.value)), context)
  }

  // ----- evalCriterion -------------------------------------------------------------

  /** evalCriterion: dispatch on the type; an untyped criterion is SIMPLE. */
  function EvalCriterion(env: Env, fuel: nat, cache: Cache, c: Criterion, context: Context): Out<bool> {
    match c.ctype
      case None => Simple(env, fuel, cache, c.condition, context)
      case Some(Simple) => Simple(env, fuel, cache, c.condition, context)
      case Some(Regex) => RegexCriterion(env, fuel, cache, c, context)
      case Some(JsonPath) => JsonPathCriterion(env, fuel, cache, c, context)
      case Some(XPath) => XPathCriterion(env, fuel, cache, c, context)
  }

  // ----- properties: splitting and the operator ------------------------------------

  /** An operator match starts on an operator character. */
  lemma OpAtChar(s: string, i: nat)
    ensures OpAt(s, i).Some? ==> i < |s| && IsOpChar(s[i])
  {
  }

  /** The scan passes over characters that cannot start an operator. */
  lemma {:induction false} SplitSkip(s: string, from: nat, i: nat, j: nat)
    requires from <= i <= j <= |s|
    requires forall k :: i <= k < j ==> !IsOpChar(s[k])
    ensures SplitFrom(s, from, i) == SplitFrom(s, from, j)
    decreases j - i
  {
    if i < j {
      OpAtChar(s, i);
      SplitSkip(s, from, i + 1, j);
    }
  }

  /** An operator occurring at `i`, and not followed by another operator
    * character when it is a single one, is the one matched there. */
  lemma OpAtHere(s: string, i: nat, op: Op)
    requires OpOccursAt(s, op, i)
    requires |OpText(op)| == 1 && i + 1 < |s| ==> !IsOpChar(s[i + 1])
    ensures OpAt(s, i) == Some(op)
  {
  }

  /** The operator between two texts, the second not starting with an
    * operator character, is the one matched there. */
  lemma OpAtAround(a: string, op: Op, b: string)
    requires |b| > 0 ==> !IsOpChar(b[0])
    ensures OpAt(a + OpText(op) + b, |a|) == Some(op)
  {
    var s := a + OpText(op) + b;
    var t := OpText(op);
    assert s[|a|] == t[0] && (|t| == 2 ==> s[|a| + 1] == t[1]);
    assert |a| + |t| < |s| ==> s[|a| + |t|] == b[0];
    OpAtHere(s, |a|, op);
  }

  /** One operator match with no operator character before or after it
    * splits the text into the two pieces around it. */
  lemma SplitOnce(s: string, i: nat, op: Op)
    requires i + |OpText(op)| <= |s| && OpAt(s, i) == Some(op)
    requires forall k :: 0 <= k < i ==> !IsOpChar(s[k])
    requires forall k :: i + |OpText(op)| <= k < |s| ==> !IsOpChar(s[k])
    ensures SplitFrom(s, 0, 0) == [s[..i], s[i + |OpText(op)|..]]
  {
    var n := i + |OpText(op)|;
    SplitThroughOp(s, i, op);
    SplitRest(s, n);
  }

  /** Up to the first operator the scan yields the text before it as a piece. */
  lemma SplitThroughOp(s: string, i: nat, op: Op)
    requires i + |OpText(op)| <= |s| && OpAt(s, i) == Some(op)
    requires forall k :: 0 <= k < i ==> !IsOpChar(s[k])
    ensures SplitFrom(s, 0, 0) == [s[..i]] + SplitFrom(s, i + |OpText(op)|, i + |OpText(op)|)
  {
    SplitSkip(s, 0, 0, i);
    SplitAtOp(s, i, op);
  }

  /** Without operator characters the rest is one piece. */
  lemma SplitRest(s: string, n: nat)
    requires n <= |s|
    requires forall k :: n <= k < |s| ==> !IsOpChar(s[k])
    ensures SplitFrom(s, n, n) == [s[n..]]
  {
    SplitSkip(s, n, n, |s|);
    SplitEnd(s, n);
  }

  lemma SplitAtOp(s: string, i: nat, op: Op)
    requires i + |OpText(op)| <= |s| && OpAt(s, i) == Some(op)
    ensures SplitFrom(s, 0, i) == [s[..i]] + SplitFrom(s, i + |OpText(op)|, i + |OpText(op)|)
  {
  }

  lemma SplitEnd(s: string, from: nat)
    requires from <= |s|
    ensures SplitFrom(s, from, |s|) == [s[from..]]
  {
  }

  /** Splitting `a <op> b` for operator-free `a` and `b` gives `a` and `b`. */
  lemma SplitAround(a: string, op: Op, b: string)
    requires OpFree(a) && OpFree(b)
    ensures SplitFrom(a + OpText(op) + b, 0, 0) == [a, b]
  {
    var s := a + OpText(op) + b;
    var n := |a| + |OpText(op)|;
    OpAtAround(a, op, b);
    assert s[..|a|] == a && s[n..] == b;
    SplitOnce(s, |a|, op);
  }

  /** A condition without any operator is not a SIMPLE condition. */
  lemma NoOperatorInvalid(env: Env, fuel: nat, cache: Cache, condition: string, context: Context)
    requires OpFree(condition)
    ensures Logical(env, fuel, cache, condition, context) == Out(Err(InvalidFormat(condition)), cache)
  {
    SplitSkip(condition, 0, 0, |condition|);
  }

  /** An operator with nothing after it leaves a single part. */
  lemma MissingRightInvalid(env: Env, fuel: nat, cache: Cache, a: string, op: Op, context: Context)
    requires OpFree(a)
    ensures Logical(env, fuel, cache, a + OpText(op), context) == Out(Err(InvalidFormat(a + OpText(op))), cache)
  {
    SplitAround(a, op, "");
    assert a + OpText(op) + "" == a + OpText(op);
  }

  /** Only the operator's own characters are operator characters in `a <op> b`,
    * so no other operator text occurs in it. */
  lemma NoOtherOperator(a: string, op: Op, b: string, t: string)
    requires OpFree(a) && OpFree(b)
    requires 1 <= |t| <= 2 && IsOpChar(t[0]) && (|t| == 2 ==> IsOpChar(t[1]))
    requires !OccursAt(OpText(op), t, 0)
    requires !(|t| == 1 && |OpText(op)| == 2 && t[0] == OpText(op)[1])
    ensures !Contains(a + OpText(op) + b, t)
  {
    var u := OpText(op);
    var s := a + u + b;
    var n := |a| + |u|;
    forall i | 0 <= i && i + |t| <= |s|
      ensures !OccursAt(s, t, i)
    {
      assert s[i..i + |t|][0] == s[i];
      if i < |a| {
        assert s[i] == a[i];
      } else if i >= n {
        assert s[i] == b[i - n];
      } else if i == |a| {
        if |t| <= |u| {
          assert s[i..i + |t|] == u[..|t|];
        } else {
          assert s[i..i + |t|][1] == s[i + 1] == b[0];
        }
      } else {
        assert s[i] == u[1];
        if |t| == 2 {
          assert s[i..i + |t|][1] == s[i + 1] == b[0];
        }
      }
    }
    ContainsIff(s, t);
  }

  /** The operator of `a <op> b` is `op`: the earlier alternatives are not in it. */
  lemma FirstContainedAround(a: string, op: Op, b: string)
    requires OpFree(a) && OpFree(b)
    ensures FirstContained(a + OpText(op) + b) == Some(op)
  {
    var s := a + OpText(op) + b;
    assert OccursAt(s, OpText(op), |a|) by {
      assert s[|a|..|a| + |OpText(op)|] == OpText(op);
    }
    ContainsIff(s, OpText(op));
    match op {
      case Eq =>
      case Ne => NoOtherOperator(a, op, b, "==");
      case Le => NoOtherOperator(a, op, b, "=="); NoOtherOperator(a, op, b, "!=");
      case Ge =>
        NoOtherOperator(a, op, b, "=="); NoOtherOperator(a, op, b, "!=");
        NoOtherOperator(a, op, b, "<=");
      case Lt =>
        NoOtherOperator(a, op, b, "=="); NoOtherOperator(a, op, b, "!=");
        NoOtherOperator(a, op, b, "<="); NoOtherOperator(a, op, b, ">=");
      case Gt =>
        NoOtherOperator(a, op, b, "=="); NoOtherOperator(a, op, b, "!=");
        NoOtherOperator(a, op, b, "<="); NoOtherOperator(a, op, b, ">=");
        NoOtherOperator(a, op, b, "<");
    }
  }

  /** A well-formed SIMPLE condition `a <op> b`: the trimmed operands are
    * resolved left then right, and the result is `op` applied to their
    * comparison and 0. */
  lemma SimpleAround(env: Env, fuel: nat, cache: Cache, a: string, op: Op, b: string, context: Context,
                     left: Out<Value>, right: Out<Value>)
    requires OpFree(a) && OpFree(b) && b != ""
    requires left == Resolve(env, fuel, cache, Trim(a), context) && left.res.Ok?
    requires right == Resolve(env, fuel, left.cache, Trim(b), context) && right.res.Ok?
    ensures Simple(env, fuel, cache, Some(a + OpText(op) + b), context) ==
      Out(match CompareValues(env.o, left.res.value, right.res.value)
            case Ok(c) => Ok(Holds(op, c))
            case Err(e) => Err(e),
          right.cache)
  {
    var condition := a + OpText(op) + b;
    SplitOpsAround(a, op, b);
    FirstContainedAround(a, op, b);
    assert Decide(env.o, condition, left.res.value, right.res.value) ==
      match CompareValues(env.o, left.res.value, right.res.value)
        case Ok(c) => Ok(Holds(op, c))
        case Err(e) => Err(e);
  }

  /** The two operands of `a <op> b`, as String.split returns them. */
  lemma SplitOpsAround(a: string, op: Op, b: string)
    requires OpFree(a) && OpFree(b) && b != ""
    ensures SplitOps(a + OpText(op) + b) == [a, b]
  {
    SplitAround(a, op, b);
    var r := DropTrailingEmpty([a, b]);
    assert |r| == 2;
  }

  // ----- properties: compareValues -------------------------------------------------

  /** Two strings are equal for the evaluator exactly when they are equal ignoring case. */
  lemma StringsEqualIgnoringCase(o: Oracles, a: string, b: string)
    ensures CompareValues(o, Str(a), Str(b)) == Ok(0) <==> EqualsIgnoreCase(a, b)
  {
    CompareIgnoreCaseZero(a, b);
  }

  /** Swapping comparable operands (other than null against "null") reverses the order. */
  lemma CompareSwapped(o: Oracles, l: Value, r: Value)
    requires CompareValues(o, l, r).Ok? && !l.Null?
    ensures CompareValues(o, r, l).Ok?
    ensures CompareValues(o, r, l).value == -CompareValues(o, l, r).value
  {
    if l.Str? {
      CompareIgnoreCaseAntisymmetric(l.s, r.s);
    }
  }

  /** Null equals "null" only with null on the left: the other way round the
    * two are incomparable. */
  lemma NullAgainstText(o: Oracles)
    ensures CompareValues(o, Null, Str("null")) == Ok(0)
    ensures CompareValues(o, Str("null"), Null) == Err(Incomparable(o, Str("null"), Null))
  {
  }

  /** Operands of different kinds are incomparable. */
  lemma MixedIncomparable(o: Oracles, n: int, t: string)
    ensures CompareValues(o, Num(n), Str(t)) == Err(Incomparable(o, Num(n), Str(t)))
    ensures CompareValues(o, Str(t), Num(n)) == Err(Incomparable(o, Str(t), Num(n)))
  {
  }

  // ----- properties: dispatch ------------------------------------------------------

  /** A criterion without a type is evaluated as a SIMPLE one. */
  lemma UntypedIsSimple(env: Env, fuel: nat, cache: Cache, c: Criterion, context: Context)
    requires c.ctype.None?
    ensures EvalCriterion(env, fuel, cache, c, context) ==
            EvalCriterion(env, fuel, cache, c.(ctype := Some(CriterionType.Simple)), context)
  {
  }

  /** REGEX needs a context that resolves to a String; the result is the
    * full match of that text against the condition. */
  lemma RegexContext(env: Env, fuel: nat, cache: Cache, c: Criterion, context: Context, out: Out<Value>)
    requires c.ctype == Some(Regex) && c.context.Some? && c.condition.Some?
    requires out == Resolve(env, fuel, cache, c.context.value, context) && out.res.Ok?
    ensures var r := EvalCriterion(env, fuel, cache, c, context);
      r.cache == out.cache &&
      (out.res.value.Str? && env.o.regexMatches(out.res.value.s, c.condition.value).Some? ==>
         r.res == Ok(env.o.regexMatches(out.res.value.s, c.condition.value).value)) &&
      (!out.res.value.Str? ==> r.res == Err(NotAString(c.context.value)))
  {
  }

  // ----- properties: the JSONPATH condition patterns -------------------------------

  /** The position of an operator among the regex alternatives. */
  function OpIndex(op: Op): (k: nat)
    ensures k < |Operators| && Operators[k] == op
  {
    match op
      case Eq => 0
      case Ne => 1
      case Le => 2
      case Ge => 3
      case Lt => 4
      case Gt => 5
  }

  /** The operator matched at `p` is the first alternative occurring there. */
  lemma OpAtFirst(s: string, p: nat, k: nat)
    requires OpAt(s, p).Some? && k < OpIndex(OpAt(s, p).value)
    ensures !OpOccursAt(s, Operators[k], p)
  {
  }

  /** When the rest of the pattern matches after it, the operator group takes
    * the alternative the split regex would take at the same place. */
  lemma {:induction false} OperatorFromAt(s: string, p: nat, k: nat, op: Op)
    requires OpAt(s, p) == Some(op) && k <= OpIndex(op)
    requires Trailer(s, p + |OpText(op)|).Some?
    ensures OperatorFrom(s, p, k) == Some((op, Trailer(s, p + |OpText(op)|).value))
    decreases OpIndex(op) - k
  {
    if k < OpIndex(op) {
      OpAtFirst(s, p, k);
      OperatorFromAt(s, p, k + 1, op);
    }
  }

  /** `\s*(?<expected>.+)` before a text that starts with a visible character
    * and has no line terminator takes all of that text. */
  lemma TrailerTakesRest(s: string, q: nat, x: string)
    requires q < |s| && s[q] == ' ' && s[q + 1..] == x
    requires x != "" && !IsRegexSpace(x[0])
    requires forall i :: 0 <= i < |x| ==> !IsLineTerminator(x[i])
    ensures Trailer(s, q) == Some(x)
  {
    assert s[q + 1] == x[0];
    assert !IsLineTerminator(s[q + 1]);
    assert SkipSpaces(s, q + 1) == q + 1;
    assert SkipSpaces(s, q) == q + 1;
    assert forall k :: q + 1 <= k < |s| ==> s[k] == x[k - q - 1];
    LineEndAt(s, q + 1, |s|);
    assert ExpectedAt(s, q, q + 1) == Some(s[q + 1..|s|]);
    assert s[q + 1..|s|] == x;
    assert Trailer(s, q) == ExpectedAt(s, q, q + 1);
  }

  /** The text before the group: `#` for a pointer, nothing for a query. */
  function Lead(p: Pattern): string {
    match p
      case PointerPattern => "#"
      case QueryPattern => ""
  }

  /** The character the group opens with: `/` for a pointer, `$` for a query. */
  function GroupChar(p: Pattern): char {
    match p
      case PointerPattern => '/'
      case QueryPattern => '$'
  }

  /** `\\s*(?<operator>…)\\s*(?<expected>.+)` after the group of a
    * well-formed condition reads its operator and expected text. */
  lemma CanonicalTail(s: string, e: nat, op: Op, x: string)
    requires e <= |s| && s[e..] == " " + OpText(op) + " " + x
    requires x != "" && !IsRegexSpace(x[0])
    requires forall i :: 0 <= i < |x| ==> !IsLineTerminator(x[i])
    ensures TailAt(s, e) == Some((op, x))
  {
    var t := OpText(op);
    var at := e + 1;
    var q := at + |t|;
    var tail := s[e..];
    assert tail[0] == s[e] && tail[1] == s[at];
    assert s[at] == t[0];
    assert SkipSpaces(s, e) == at;
    assert |t| == 2 ==> s[at + 1] == t[1] by {
      assert |t| == 2 ==> s[at + 1] == tail[2];
    }
    assert s[q] == ' ' by {
      assert s[q] == tail[1 + |t|];
    }
    OpAtHere(s, at, op);
    assert s[q + 1..] == x by {
      assert s[q + 1..] == tail[2 + |t|..];
    }
    TrailerTakesRest(s, q, x);
    OperatorFromAt(s, at, 0, op);
  }

  /** The group of a well-formed condition starts right after the lead and
    * extends to the first space. */
  lemma CanonicalGroup(p: Pattern, s: string, grp: string)
    requires |grp| >= 2 && grp[0] == GroupChar(p)
    requires forall i :: 0 <= i < |grp| ==> grp[i] != ' '
    requires |s| > |Lead(p)| + |grp| && s[..|Lead(p)| + |grp| + 1] == Lead(p) + grp + " "
    ensures GroupStart(p, s, 0) == Some(|Lead(p)|)
    ensures NonSpaceEnd(s, |Lead(p)| + 1) == |Lead(p)| + |grp|
  {
    var g := |Lead(p)|;
    var e := g + |grp|;
    var pre := Lead(p) + grp + " ";
    assert forall k :: 0 <= k <= e ==> s[k] == pre[k];
    assert s[g] == grp[0];
    assert forall k :: g <= k < e ==> s[k] == grp[k - g];
    assert s[e] == ' ';
    NonSpaceEndAt(s, g + 1, e);
  }

  /** A well-formed condition `<ptr-or-query> <op> <expected>`: the matcher
    * finds exactly its group, operator and expected text. */
  lemma PatternCanonical(p: Pattern, grp: string, op: Op, x: string)
    requires |grp| >= 2 && grp[0] == GroupChar(p)
    requires forall i :: 0 <= i < |grp| ==> grp[i] != ' '
    requires x != "" && !IsRegexSpace(x[0])
    requires forall i :: 0 <= i < |x| ==> !IsLineTerminator(x[i])
    ensures FindFrom(p, Lead(p) + grp + " " + OpText(op) + " " + x, 0) == Some(Match(grp, op, x))
  {
    var s := Lead(p) + grp + " " + OpText(op) + " " + x;
    CanonicalPieces(p, s, grp, op, x);
    PatternCanonicalIn(p, s, grp, op, x);
  }

  lemma PatternCanonicalIn(p: Pattern, s: string, grp: string, op: Op, x: string)
    requires |grp| >= 2 && grp[0] == GroupChar(p)
    requires forall i :: 0 <= i < |grp| ==> grp[i] != ' '
    requires x != "" && !IsRegexSpace(x[0])
    requires forall i :: 0 <= i < |x| ==> !IsLineTerminator(x[i])
    requires |s| > |Lead(p)| + |grp|
    requires s[..|Lead(p)| + |grp| + 1] == Lead(p) + grp + " "
    requires s[|Lead(p)| + |grp|..] == " " + OpText(op) + " " + x
    requires s[|Lead(p)|..|Lead(p)| + |grp|] == grp
    ensures FindFrom(p, s, 0) == Some(Match(grp, op, x))
  {
    var g := |Lead(p)|;
    var e := g + |grp|;
    CanonicalGroup(p, s, grp);
    CanonicalTail(s, e, op, x);
    GroupFromLongest(s, g, e, op, x);
    var m := Match(grp, op, x);
    assert s[g..e] == grp;
    assert NonSpaceEnd(s, g + 1) == e;
    FindFromFirst(p, s, g, m);
  }

  /** Where the parts of a well-formed condition sit in it. */
  lemma CanonicalPieces(p: Pattern, s: string, grp: string, op: Op, x: string)
    requires s == Lead(p) + grp + " " + OpText(op) + " " + x
    ensures |s| > |Lead(p)| + |grp|
    ensures s[..|Lead(p)| + |grp| + 1] == Lead(p) + grp + " "
    ensures s[|Lead(p)| + |grp|..] == " " + OpText(op) + " " + x
    ensures s[|Lead(p)|..|Lead(p)| + |grp|] == grp
  {
    var lg := Lead(p) + grp;
    var tail := " " + OpText(op) + " " + x;
    assert s == lg + tail;
    assert s[..|lg|] == lg && s[|lg|..] == tail;
    assert s[..|lg| + 1] == lg + " " by {
      assert s[..|lg| + 1] == s[..|lg|] + [s[|lg|]];
    }
    assert s[|Lead(p)|..|lg|] == lg[|Lead(p)|..];
  }

  lemma GroupFromLongest(s: string, g: nat, e: nat, op: Op, x: string)
    requires g + 2 <= e <= |s| && TailAt(s, e) == Some((op, x))
    ensures GroupFrom(s, g, e) == Some(Match(s[g..e], op, x))
  {
  }

  lemma FindFromFirst(p: Pattern, s: string, g: nat, m: Match)
    requires 0 < |s| && GroupStart(p, s, 0) == Some(g)
    requires GroupFrom(s, g, NonSpaceEnd(s, g + 1)) == Some(m)
    ensures FindFrom(p, s, 0) == Some(m)
  {
  }

  /** Without an operator character at `p` no alternative matches there. */
  lemma OperatorFromNone(s: string, p: nat, k: nat)
    requires k <= |Operators|
    requires p < |s| ==> !IsOpChar(s[p])
    ensures OperatorFrom(s, p, k) == None
    decreases |Operators| - k
  {
    if k < |Operators| {
      OperatorFromNone(s, p, k + 1);
    }
  }

  /** No extent of the group leaves an operator after it. */
  lemma {:induction false} GroupFromNone(s: string, g: nat, e: nat)
    requires g <= e <= |s| && OpFree(s)
    ensures GroupFrom(s, g, e) == None
    decreases e
  {
    if e >= g + 2 {
      var shorter := e - 1;
      GroupFromNone(s, g, shorter);
      GroupFromShorter(s, g, e);
    } else {
      GroupFromTooShort(s, g, e);
    }
  }

  lemma GroupFromTooShort(s: string, g: nat, e: nat)
    requires g <= e <= |s| && e < g + 2
    ensures GroupFrom(s, g, e) == None
  {
  }

  lemma GroupFromShorter(s: string, g: nat, e: nat)
    requires g + 2 <= e <= |s| && OpFree(s) && GroupFrom(s, g, e - 1) == None
    ensures GroupFrom(s, g, e) == None
  {
    TailAtNone(s, e);
    GroupFromStep(s, g, e);
  }

  lemma GroupFromStep(s: string, g: nat, e: nat)
    requires g + 2 <= e <= |s| && TailAt(s, e) == None
    ensures GroupFrom(s, g, e) == GroupFrom(s, g, e - 1)
  {
  }

  lemma TailAtNone(s: string, e: nat)
    requires e <= |s| && OpFree(s)
    ensures TailAt(s, e) == None
  {
    OperatorFromNone(s, SkipSpaces(s, e), 0);
  }

  /** A condition without an operator matches neither pattern. */
  lemma {:induction false} FindFromNone(p: Pattern, s: string, k: nat)
    requires OpFree(s)
    ensures FindFrom(p, s, k) == None
    decreases |s| - k
  {
    if k < |s| {
      var g := GroupStart(p, s, k);
      if g.Some? {
        GroupFromNone(s, g.value, NonSpaceEnd(s, g.value + 1));
      }
      FindFromNone(p, s, k + 1);
    }
  }

  /** A JSONPATH condition without an operator is a pattern failure, in either form. */
  lemma JsonPathNoOperator(env: Env, fuel: nat, cache: Cache, json: Json, condition: string, context: Context)
    requires OpFree(condition)
    ensures PointerComparison(env, fuel, cache, json, condition, context) ==
            Out(Err(PatternFailed(PointerPattern, condition)), cache)
    ensures QueryComparison(env, fuel, cache, json, condition, context) ==
            Out(Err(PatternFailed(QueryPattern, condition)), cache)
  {
    FindFromNone(PointerPattern, condition, 0);
    FindFromNone(QueryPattern, condition, 0);
  }

  /** `#/a/b <op> x`: the node the pointer reaches (the empty text when it
    * reaches nothing) is compared with the resolved `x` as a SIMPLE condition. */
  lemma PointerComparisonCanonical(env: Env, fuel: nat, cache: Cache, json: Json, grp: string, op: Op,
                                   x: string, context: Context, expected: Out<string>)
    requires |grp| >= 2 && grp[0] == '/'
    requires forall i :: 0 <= i < |grp| ==> grp[i] != ' '
    requires x != "" && !IsRegexSpace(x[0])
    requires forall i :: 0 <= i < |x| ==> !IsLineTerminator(x[i])
    requires At(json, grp).Ok?
    requires expected == ResolveText(env, fuel, cache, x) && expected.res.Ok?
    ensures var actual := if At(json, grp).value.Some? then AsText(At(json, grp).value.value) else "";
      PointerComparison(env, fuel, cache, json, "#" + grp + " " + OpText(op) + " " + x, context) ==
      Simple(env, fuel, expected.cache, Some(Synthesised(actual, op, expected.res.value)), context)
  {
    PatternCanonical(PointerPattern, grp, op, x);
  }

  /** `$.a.b <op> x`: the value the query reads from the context, written
    * out, is compared with the resolved `x` as a SIMPLE condition; a query
    * reading null is an error. */
  lemma QueryComparisonCanonical(env: Env, fuel: nat, cache: Cache, json: Json, grp: string, op: Op,
                                 x: string, context: Context, expected: Out<string>)
    requires |grp| >= 2 && grp[0] == '$'
    requires forall i :: 0 <= i < |grp| ==> grp[i] != ' '
    requires x != "" && !IsRegexSpace(x[0])
    requires forall i :: 0 <= i < |x| ==> !IsLineTerminator(x[i])
    requires expected == ResolveText(env, fuel, cache, x) && expected.res.Ok?
    ensures var r := QueryComparison(env, fuel, cache, json, grp + " " + OpText(op) + " " + x, context);
      match env.o.jsonPathRead(env.o.writeJson(json), grp)
        case None => r == Out(Err(Foreign("JsonPath")), expected.cache)
        case Some(v) =>
          if v.Null? then r.res.Err? && r.cache == expected.cache
          else r == Simple(env, fuel, expected.cache, Some(Synthesised(Show(env.o, v), op, expected.res.value)), context)
  {
    PatternCanonical(QueryPattern, grp, op, x);
    assert Lead(QueryPattern) + grp == grp;
  }
}
