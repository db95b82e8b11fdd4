/** SpecExpressionResolver: runtime expressions over the document itself
  * ($inputs, $outputs, $sourceDescriptions, $workflows, $steps), `{$…}`
  * interpolation in strings, and the shared memo of resolved expressions.
  *
  * The functions below specify resolution with the memo threaded through
  * explicitly; the class beneath them is the resolver object, whose methods
  * update the shared provider and are proved to agree with the functions.
  * `fuel` bounds the recursion from a step or workflow output back into
  * string resolution (unbounded, up to a stack overflow, in the library). */
module SpecResolver {
  import opened Wrappers
  import opened Strings
  import opened Json
  import opened Values
  import opened Model
  import opened ExpressionCache
  import opened ResolverUtils
  import opened HttpResolver

  /** What the resolver is built from: the document as JSON arrays and the inputs. */
  datatype Env = Env(
    o: Oracles,
    inputs: Value,
    sourceDescriptions: seq<Json>,
    workflows: seq<Json>,
    steps: seq<Json>)

  /** The constructor's view of a document: source descriptions and
    * workflows as JSON, and the steps of all workflows in one array. */
  function EnvOf(o: Oracles, doc: Document, inputs: Value): (env: Env)
    ensures |env.sourceDescriptions| == |doc.sourceDescriptions| && |env.workflows| == |doc.workflows|
    ensures env.steps == StepsJson(AllSteps(doc.workflows))
  {
    Env(o, inputs,
        seq(|doc.sourceDescriptions|, i requires 0 <= i < |doc.sourceDescriptions| =>
          SourceDescriptionJson(doc.sourceDescriptions[i])),
        seq(|doc.workflows|, i requires 0 <= i < |doc.workflows| => WorkflowJson(doc.workflows[i])),
        StepsJson(AllSteps(doc.workflows)))
  }

  /** The `outputs` map of the resolver: created empty and never filled. */
  const NoOutputs: Value := Dict(map[])

  /** A result together with the memo as it is afterwards. */
  datatype Out<T> = Out(res: Result<T>, cache: Cache)

  // ----- searching the arrays ------------------------------------------------------

  predicate IdMatches(node: Json, field: string, target: string) {
    Has(node, field) && AsText(Get(node, field).value) == target
  }

  /** The first node from `k` on whose `field` reads as `target`. */
  function FirstWithId(nodes: seq<Json>, field: string, target: string, k: nat): (r: Option<nat>)
    requires k <= |nodes|
    ensures r.Some? ==> k <= r.value < |nodes| && IdMatches(nodes[r.value], field, target)
    ensures r.Some? ==> forall j :: k <= j < r.value ==> !IdMatches(nodes[j], field, target)
    ensures r.None? ==> forall j :: k <= j < |nodes| ==> !IdMatches(nodes[j], field, target)
    decreases |nodes| - k
  {
    if k == |nodes| then None
    else if IdMatches(nodes[k], field, target) then Some(k)
    else FirstWithId(nodes, field, target, k + 1)
  }

  /** A walk result as a Java object: null, or the node (a TextNode as its text). */
  function NodeValue(n: Option<Json>): Value {
    if n.None? then Null else UnwrapText(Node(n.value))
  }

  /** resolveSourceDescription: `<name>.<path>` read from the first source
    * description of that name; null when the path has one segment or no
    * description has the name. */
  function SourceDescriptionLookup(o: Oracles, cache: Cache, nodes: seq<Json>, keyPath: string): Result<Option<Json>> {
    var keys := JavaSplit(keyPath, '.');
    if |keys| < 2 then Ok(None)
    else
      match FirstWithId(nodes, "name", keys[0], 0)
        case None => Ok(None)
        case Some(i) => JsonWalk(o, cache, nodes[i], JavaSplit(Join(keys[1..], "."), '.'))
  }

  function NestedNull(nestedKeyPath: string): Failure {
    IllegalState("Tried to resolved nested key path " + nestedKeyPath + " but got null")
  }

  function UnresolvedPlaceholder(expr: string): Failure {
    IllegalState("Tried to resolve expression " + expr + " but got null")
  }

  function UnmatchedBrace(text: string): Failure {
    IllegalArgument("Unmatched '{$' in expression: " + text)
  }

  function ComponentsNotHandled(expression: string): Failure {
    IllegalState("Expected to be handled by ArazzoComponentRefResolver but was not: " + expression)
  }

  /** The text a placeholder contributes: a TextNode's text, else String.valueOf. */
  function PlaceholderText(o: Oracles, v: Value): string {
    if v.Node? && v.j.JStr? then v.j.s else Show(o, v)
  }

  /** The memo rule: a non-null result whose text is not the expression
    * itself (ignoring case) is remembered. */
  function Remember(o: Oracles, expression: string, v: Value, cache: Cache): Out<Value> {
    if !v.Null? && !EqualsIgnoreCase(expression, Show(o, v)) then Out(Ok(v), cache[expression := v])
    else Out(Ok(v), cache)
  }

  /** The five prefixes the resolver answers itself. */
  predicate SpecPrefixed(e: string) {
    StartsWith(e, "$inputs.") || StartsWith(e, "$outputs.") || StartsWith(e, "$sourceDescriptions.")
    || StartsWith(e, "$workflows.") || StartsWith(e, "$steps.")
  }

  // ----- the specification ---------------------------------------------------------

  /** resolveExpression. */
  function Resolve(env: Env, fuel: nat, cache: Cache, expression: string, context: Context): Out<Value>
    decreases fuel, 1, 0
  {
    var hit := Find(cache, expression);
    if !hit.Null? then Out(Ok(hit), cache)
    else if StartsWith(expression, "$inputs.") then
      Remember(env.o, expression, UnwrapText(MapWalk(env.inputs, JavaSplit(expression[8..], '.'))), cache)
    else if StartsWith(expression, "$outputs.") then
      Remember(env.o, expression, UnwrapText(MapWalk(NoOutputs, JavaSplit(expression[9..], '.'))), cache)
    else if StartsWith(expression, "$sourceDescriptions.") then
      match SourceDescriptionLookup(env.o, cache, env.sourceDescriptions, expression[20..])
        case Err(e) => Out(Err(e), cache)
        case Ok(n) => Remember(env.o, expression, NodeValue(n), cache)
    else if StartsWith(expression, "$workflows.") then
      var out := LookupById(env, fuel, cache, env.workflows, "workflowId", expression[11..]);
      if out.res.Err? then Out(Err(out.res.error), out.cache)
      else Remember(env.o, expression, NodeValue(out.res.value), out.cache)
    else if StartsWith(expression, "$steps.") then
      var out := LookupById(env, fuel, cache, env.steps, "stepId", expression[7..]);
      if out.res.Err? then Out(Err(out.res.error), out.cache)
      else Remember(env.o, expression, NodeValue(out.res.value), out.cache)
    else if StartsWith(expression, "$components.") || StartsWith(expression, "#/components") then
      Out(Err(ComponentsNotHandled(expression)), cache)
    else
      match ResolveHttp(env.o, expression, context)
        case Err(e) => Out(Err(e), cache)
        case Ok(v) => Out(Ok(if v.Str? then v else Str(Serialize(env.o, v))), cache)
  }

  /** resolveSteps and resolveWorkflows: `<id>.<path>` read from the first
    * node with that id; a text found there is itself resolved as a string;
    * anything else found there is an error. */
  function LookupById(env: Env, fuel: nat, cache: Cache, nodes: seq<Json>, field: string, keyPath: string)
    : Out<Option<Json>>
    decreases fuel, 0, 1
  {
    var keys := JavaSplit(keyPath, '.');
    if |keys| < 2 then Out(Ok(None), cache)
    else
      match FirstWithId(nodes, field, keys[0], 0)
        case None => Out(Ok(None), cache)
        case Some(i) => FoundValue(env, fuel, cache, nodes[i], Join(keys[1..], "."))
  }

  /** The value at the dotted path inside the node found: its text resolved
    * as a string; anything but a text is an error. */
  function FoundValue(env: Env, fuel: nat, cache: Cache, node: Json, nested: string): Out<Option<Json>>
    decreases fuel, 0, 0
  {
    match JsonWalk(env.o, cache, node, JavaSplit(nested, '.'))
      case Err(e) => Out(Err(e), cache)
      case Ok(found) =>
        if found.Some? && found.value.JStr? then
          if fuel == 0 then Out(Err(OutOfFuel), cache)
          else
            var out := ResolveText(env, fuel - 1, cache, found.value.s);
            if out.res.Err? then Out(Err(out.res.error), out.cache)
            else Out(Ok(Some(JStr(out.res.value))), out.cache)
        else Out(Err(NestedNull(nested)), cache)
  }

  /** resolveString: text with `{$` is interpolated, anything else is
    * resolved whole and written as text ("null" for null). */
  function ResolveText(env: Env, fuel: nat, cache: Cache, text: string): Out<string>
    decreases fuel, 3, 0
  {
    if IndexOfOpen(text, 0) != -1 then Interpolate(env, fuel, cache, text, 0, "")
    else
      var out := Resolve(env, fuel, cache, text, NoContext);
      if out.res.Err? then Out(Err(out.res.error), out.cache)
      else Out(Ok(Show(env.o, out.res.value)), out.cache)
  }

  /** `{$` starts at position i. */
  predicate OpenAt(text: string, i: int) {
    0 <= i < |text| - 1 && text[i] == '{' && text[i + 1] == '$'
  }

  /** No `{$` anywhere in the text. */
  predicate NoOpen(text: string) {
    forall i :: 0 <= i < |text| ==> !OpenAt(text, i)
  }

  /** indexOf("{$", from). */
  function IndexOfOpen(text: string, from: nat): (r: int)
    ensures r == -1 || (from <= r && OpenAt(text, r))
    ensures forall i :: from <= i < |text| && (r == -1 || i < r) ==> !OpenAt(text, i)
    decreases |text| - from
  {
    if from + 1 >= |text| then -1
    else if OpenAt(text, from) then from
    else IndexOfOpen(text, from + 1)
  }

  /** indexOf(c, from). */
  function IndexOfChar(text: string, c: char, from: nat): (r: int)
    ensures r == -1 || (from <= r < |text| && text[r] == c)
    ensures forall i :: from <= i < |text| && (r == -1 || i < r) ==> text[i] != c
    decreases |text| - from
  {
    if from >= |text| then -1
    else if text[from] == c then from
    else IndexOfChar(text, c, from + 1)
  }

  /** Where the next placeholder is, scanning from `start`: none left, an
    * opening `{$` without a closing `}`, or the positions of both braces. */
  datatype Scan = NoneLeft | Unclosed | Placeholder(open: nat, close: nat)

  function ScanFrom(text: string, start: nat): (r: Scan)
    ensures r.Placeholder? ==> start <= r.open && r.open + 1 < r.close < |text|
  {
    var open := IndexOfOpen(text, start);
    if open == -1 then NoneLeft
    else
      var close := IndexOfChar(text, '}', open);
      if close == -1 then Unclosed
      else Placeholder(open, close)
  }

  /** The interpolation loop from `start`, with the text built so far. */
  function Interpolate(env: Env, fuel: nat, cache: Cache, text: string, start: nat, acc: string): Out<string>
    requires start <= |text|
    decreases fuel, 2, |text| - start
  {
    if start == |text| then Out(Ok(acc), cache)
    else
      match ScanFrom(text, start)
        case NoneLeft => Out(Ok(acc + text[start..]), cache)
        case Unclosed => Out(Err(UnmatchedBrace(text)), cache)
        case Placeholder(open, close) => InterpolateAt(env, fuel, cache, text, start, acc, open, close)
  }

  /** One placeholder found by the loop: its expression resolved, and the
    * loop continued after it with the placeholder's text appended. */
  function InterpolateAt(env: Env, fuel: nat, cache: Cache, text: string, start: nat, acc: string,
                         open: nat, close: nat): Out<string>
    requires start <= open && open + 1 < close < |text|
    decreases fuel, 2, |text| - close
  {
    var expr := text[open + 1..close];
    var out := Resolve(env, fuel, cache, expr, NoContext);
    if out.res.Err? then Out(Err(out.res.error), out.cache)
    else if out.res.value.Null? then Out(Err(UnresolvedPlaceholder(expr)), out.cache)
    else Interpolate(env, fuel, out.cache, text, close + 1,
                     acc + text[start..open] + PlaceholderText(env.o, out.res.value))
  }

  // ----- properties ------------------------------------------------------------------

  /** An expression already in the memo is answered from it, whatever the context. */
  lemma CacheHit(env: Env, fuel: nat, cache: Cache, expression: string, context: Context)
    requires expression in cache && !cache[expression].Null?
    ensures Resolve(env, fuel, cache, expression, context) == Out(Ok(cache[expression]), cache)
  {
  }

  /** Component references are not this resolver's business: an uncached one is an error. */
  lemma ComponentsRejected(env: Env, fuel: nat, cache: Cache, expression: string, context: Context)
    requires Find(cache, expression).Null?
    requires StartsWith(expression, "$components.") || StartsWith(expression, "#/components")
    ensures Resolve(env, fuel, cache, expression, context) == Out(Err(ComponentsNotHandled(expression)), cache)
  {
    if StartsWith(expression, "$components.") {
      PrefixClash(expression, "$components.", "$inputs.", 1);
      PrefixClash(expression, "$components.", "$outputs.", 1);
      PrefixClash(expression, "$components.", "$sourceDescriptions.", 1);
      PrefixClash(expression, "$components.", "$workflows.", 1);
      PrefixClash(expression, "$components.", "$steps.", 1);
    } else {
      PrefixClash(expression, "#/components", "$inputs.", 0);
      PrefixClash(expression, "#/components", "$outputs.", 0);
      PrefixClash(expression, "#/components", "$sourceDescriptions.", 0);
      PrefixClash(expression, "#/components", "$workflows.", 0);
      PrefixClash(expression, "#/components", "$steps.", 0);
    }
  }

  /** No expression without a leading `$` is one of the resolver's own. */
  lemma NotSpecPrefixed(e: string)
    requires !StartsWith(e, "$")
    ensures !SpecPrefixed(e) && !StartsWith(e, "$components.")
  {
    if StartsWith(e, "$inputs.") { StartsWithShorter(e, "$inputs.", "$"); }
    if StartsWith(e, "$outputs.") { StartsWithShorter(e, "$outputs.", "$"); }
    if StartsWith(e, "$sourceDescriptions.") { StartsWithShorter(e, "$sourceDescriptions.", "$"); }
    if StartsWith(e, "$workflows.") { StartsWithShorter(e, "$workflows.", "$"); }
    if StartsWith(e, "$steps.") { StartsWithShorter(e, "$steps.", "$"); }
    if StartsWith(e, "$components.") { StartsWithShorter(e, "$components.", "$"); }
  }

  /** Text that is not an expression and holds no placeholder comes back as it is. */
  lemma PlainTextUnchanged(env: Env, fuel: nat, cache: Cache, text: string)
    requires Find(cache, text).Null?
    requires NoOpen(text) && !StartsWith(text, "$") && !StartsWith(text, "#/components")
    ensures ResolveText(env, fuel, cache, text) == Out(Ok(text), cache)
  {
    NotSpecPrefixed(text);
  }

  /** A literal (no leading `$`, not a components pointer) resolves to itself
    * in no context and in an HTTP context, and is not memoised. */
  lemma LiteralVerbatim(env: Env, fuel: nat, cache: Cache, e: string, context: Context)
    requires Find(cache, e).Null? && !context.OtherContext?
    requires !StartsWith(e, "$") && !StartsWith(e, "#/components")
    ensures Resolve(env, fuel, cache, e, context) == Out(Ok(Str(e)), cache)
  {
    NotSpecPrefixed(e);
  }

  /** An HTTP expression is answered by the HTTP resolver and never memoised. */
  lemma StatusCodeNotCached(env: Env, fuel: nat, cache: Cache, s: Snapshot)
    requires Find(cache, "$statusCode").Null?
    ensures Resolve(env, fuel, cache, "$statusCode", Http(s)) == Out(Ok(Str(IntToString(s.statusCode))), cache)
  {
    var sc := "$statusCode";
    PrefixClash(sc, sc, "$inputs.", 1);
    PrefixClash(sc, sc, "$outputs.", 1);
    PrefixClash(sc, sc, "$sourceDescriptions.", 2);
    PrefixClash(sc, sc, "$workflows.", 1);
    PrefixClash(sc, sc, "$steps.", 3);
    PrefixClash(sc, sc, "$components.", 1);
    PrefixClash(sc, sc, "#/components", 0);
    StatusCode(env.o, s);
  }

  /** `$steps.<id>` and `$workflows.<id>` without a field path read as null. */
  lemma IdWithoutPathIsNull(env: Env, fuel: nat, cache: Cache, id: string)
    requires '.' !in id
    ensures Find(cache, "$steps." + id).Null? ==>
      Resolve(env, fuel, cache, "$steps." + id, NoContext) == Out(Ok(Null), cache)
    ensures Find(cache, "$workflows." + id).Null? ==>
      Resolve(env, fuel, cache, "$workflows." + id, NoContext) == Out(Ok(Null), cache)
  {
    var st := "$steps." + id;
    var wf := "$workflows." + id;
    assert StartsWith(st, "$steps.") && st[7..] == id;
    assert StartsWith(wf, "$workflows.") && wf[11..] == id;
    PrefixClash(st, "$steps.", "$inputs.", 1);
    PrefixClash(st, "$steps.", "$outputs.", 1);
    PrefixClash(st, "$steps.", "$sourceDescriptions.", 2);
    PrefixClash(st, "$steps.", "$workflows.", 1);
    PrefixClash(wf, "$workflows.", "$inputs.", 1);
    PrefixClash(wf, "$workflows.", "$outputs.", 1);
    PrefixClash(wf, "$workflows.", "$sourceDescriptions.", 1);
    assert JavaSplit(id, '.') == [id];
  }

  /** After a resolution of one of the resolver's own expressions that gives
    * a non-null value, the memo answers that expression with that value. */
  lemma ResolvedIsRemembered(env: Env, fuel: nat, cache: Cache, expression: string, context: Context)
    requires SpecPrefixed(expression)
    requires var out := Resolve(env, fuel, cache, expression, context);
      out.res.Ok? && !out.res.value.Null? && !EqualsIgnoreCase(expression, Show(env.o, out.res.value))
    ensures var out := Resolve(env, fuel, cache, expression, context);
      Find(out.cache, expression) == out.res.value
  {
    var out := Resolve(env, fuel, cache, expression, context);
    if !Find(cache, expression).Null? {
      assert out == Out(Ok(Find(cache, expression)), cache);
    } else if StartsWith(expression, "$inputs.") || StartsWith(expression, "$outputs.")
      || StartsWith(expression, "$sourceDescriptions.") {
      RememberFinds(env.o, expression, out.res.value, cache);
    } else {
      RememberedAfterLookup(env, fuel, cache, expression, context);
    }
  }

  /** The same, for `$workflows.` and `$steps.`, whose lookup may itself add
    * to the memo before the memo rule applies. */
  lemma RememberedAfterLookup(env: Env, fuel: nat, cache: Cache, expression: string, context: Context)
    requires Find(cache, expression).Null?
    requires !StartsWith(expression, "$inputs.") && !StartsWith(expression, "$outputs.")
    requires !StartsWith(expression, "$sourceDescriptions.")
    requires StartsWith(expression, "$workflows.") || StartsWith(expression, "$steps.")
    requires var out := Resolve(env, fuel, cache, expression, context);
      out.res.Ok? && !out.res.value.Null? && !EqualsIgnoreCase(expression, Show(env.o, out.res.value))
    ensures var out := Resolve(env, fuel, cache, expression, context);
      Find(out.cache, expression) == out.res.value
  {
    var out := Resolve(env, fuel, cache, expression, context);
    var found := if StartsWith(expression, "$workflows.")
      then LookupById(env, fuel, cache, env.workflows, "workflowId", expression[11..])
      else LookupById(env, fuel, cache, env.steps, "stepId", expression[7..]);
    assert out == Remember(env.o, expression, NodeValue(found.res.value), found.cache);
    RememberFinds(env.o, expression, out.res.value, found.cache);
  }

  /** A value the memo rule keeps is what the memo then answers. */
  lemma RememberFinds(o: Oracles, expression: string, v: Value, cache: Cache)
    requires !v.Null? && !EqualsIgnoreCase(expression, Show(o, v))
    ensures Remember(o, expression, v, cache).res == Ok(v)
    ensures Find(Remember(o, expression, v, cache).cache, expression) == v
  {
  }

  /** Resolving an expression a second time, against the memo the first
    * resolution left, gives the same value and changes nothing. */
  lemma ResolveTwice(env: Env, fuel: nat, fuel2: nat, cache: Cache, expression: string,
                     context: Context, context2: Context)
    requires SpecPrefixed(expression)
    requires var out := Resolve(env, fuel, cache, expression, context);
      out.res.Ok? && !out.res.value.Null? && !EqualsIgnoreCase(expression, Show(env.o, out.res.value))
    ensures var out := Resolve(env, fuel, cache, expression, context);
      Resolve(env, fuel2, out.cache, expression, context2) == out
  {
    ResolvedIsRemembered(env, fuel, cache, expression, context);
  }

  /** An opening `{$` with no `}` after it is an error naming the text. */
  lemma UnmatchedPlaceholder(env: Env, fuel: nat, cache: Cache, text: string)
    requires !NoOpen(text) && '}' !in text
    ensures ResolveText(env, fuel, cache, text) == Out(Err(UnmatchedBrace(text)), cache)
  {
  }

  /** The first `{$` of `pre + rest` is at the start of `rest` when `pre` has none. */
  lemma FirstOpen(pre: string, rest: string)
    requires NoOpen(pre) && |rest| >= 2 && rest[0] == '{' && rest[1] == '$'
    ensures IndexOfOpen(pre + rest, 0) == |pre|
  {
    var text := pre + rest;
    assert OpenAt(text, |pre|);
    forall i | 0 <= i < |pre| ensures !OpenAt(text, i) {
      if i + 1 < |pre| {
        assert !OpenAt(pre, i);
        assert text[i] == pre[i] && text[i + 1] == pre[i + 1];
      } else {
        assert text[i + 1] == rest[0];
      }
    }
  }

  /** Where the scan finds the placeholder of `pre{e}post`, and what lies around it. */
  lemma ScanSingle(pre: string, e: string, post: string)
    requires NoOpen(pre) && '}' !in e && StartsWith(e, "$")
    ensures var text := pre + "{" + e + "}" + post;
      var p := |pre|;
      var c := p + 1 + |e|;
      ScanFrom(text, 0) == Placeholder(p, c) && text[p + 1..c] == e && text[0..p] == pre && text[c + 1..] == post
  {
    var rest := "{" + e + "}" + post;
    var text := pre + rest;
    assert text == pre + "{" + e + "}" + post;
    var p := |pre|;
    assert rest[1] == e[0] == '$';
    FirstOpen(pre, rest);
    FirstClose(pre, e, post);
    assert text[p..] == rest && rest[1..1 + |e|] == e;
  }

  /** The first `}` from the opening brace of `pre{e}post` is the one after `e`. */
  lemma FirstClose(pre: string, e: string, post: string)
    requires '}' !in e
    ensures IndexOfChar(pre + ("{" + e + "}" + post), '}', |pre|) == |pre| + 1 + |e|
  {
    var text := pre + ("{" + e + "}" + post);
    var p := |pre|;
    var c := p + 1 + |e|;
    assert text[c] == '}';
    forall i | p <= i < c ensures text[i] != '}' {
      if i > p {
        assert text[i] == e[i - p - 1];
      }
    }
  }

  /** The scan finds nothing in a rest of the text that has no `{$`. */
  lemma ScanNoneLeft(text: string, k: nat, post: string)
    requires k < |text| && text[k..] == post && NoOpen(post)
    ensures ScanFrom(text, k) == NoneLeft
  {
    forall i | k <= i < |text| ensures !OpenAt(text, i) {
      assert text[i] == post[i - k];
      if i + 1 < |text| {
        assert text[i + 1] == post[i - k + 1];
        assert !OpenAt(post, i - k);
      }
    }
  }

  /** One turn of the interpolation loop over a placeholder that resolves to a value. */
  lemma InterpolateStep(env: Env, fuel: nat, cache: Cache, text: string, start: nat, acc: string,
                        open: nat, close: nat)
    requires start < |text| && ScanFrom(text, start) == Placeholder(open, close)
    ensures var out := Resolve(env, fuel, cache, text[open + 1..close], NoContext);
      Interpolate(env, fuel, cache, text, start, acc) ==
        if out.res.Err? then Out(Err(out.res.error), out.cache)
        else if out.res.value.Null? then Out(Err(UnresolvedPlaceholder(text[open + 1..close])), out.cache)
        else Interpolate(env, fuel, out.cache, text, close + 1,
                         acc + text[start..open] + PlaceholderText(env.o, out.res.value))
  {
  }

  /** The same step, for a resolution already computed. */
  lemma InterpolateResolved(env: Env, fuel: nat, cache: Cache, text: string, start: nat, acc: string,
                            open: nat, close: nat, out: Out<Value>)
    requires start < |text| && ScanFrom(text, start) == Placeholder(open, close)
    requires out == Resolve(env, fuel, cache, text[open + 1..close], NoContext)
    ensures out.res.Err? ==> Interpolate(env, fuel, cache, text, start, acc) == Out(Err(out.res.error), out.cache)
    ensures out.res.Ok? && out.res.value.Null? ==>
      Interpolate(env, fuel, cache, text, start, acc) ==
        Out(Err(UnresolvedPlaceholder(text[open + 1..close])), out.cache)
    ensures out.res.Ok? && !out.res.value.Null? ==>
      Interpolate(env, fuel, cache, text, start, acc) ==
        Interpolate(env, fuel, out.cache, text, close + 1,
                    acc + text[start..open] + PlaceholderText(env.o, out.res.value))
  {
    InterpolateStep(env, fuel, cache, text, start, acc, open, close);
  }

  /** An opening brace never closed is an error. */
  lemma InterpolateUnclosed(env: Env, fuel: nat, cache: Cache, text: string, start: nat, acc: string)
    requires start < |text| && ScanFrom(text, start) == Unclosed
    ensures Interpolate(env, fuel, cache, text, start, acc) == Out(Err(UnmatchedBrace(text)), cache)
  {
  }

  /** The interpolation loop ends once no placeholder is left. */
  lemma InterpolateNoneLeft(env: Env, fuel: nat, cache: Cache, text: string, start: nat, acc: string)
    requires start < |text| && ScanFrom(text, start) == NoneLeft
    ensures Interpolate(env, fuel, cache, text, start, acc) == Out(Ok(acc + text[start..]), cache)
  {
  }

  /** Text holding a placeholder is interpolated from its start. */
  lemma ResolveTextInterpolates(env: Env, fuel: nat, cache: Cache, text: string)
    requires ScanFrom(text, 0).Placeholder?
    ensures ResolveText(env, fuel, cache, text) == Interpolate(env, fuel, cache, text, 0, "")
  {
  }

  /** A text whose only placeholder is at `open`..`close` and resolves to a
    * value: the text around it with that value in its place. */
  lemma OnlyPlaceholderAt(env: Env, fuel: nat, cache: Cache, text: string, open: nat, close: nat, out: Out<Value>)
    requires ScanFrom(text, 0) == Placeholder(open, close)
    requires close + 1 == |text| || ScanFrom(text, close + 1) == NoneLeft
    requires out == Resolve(env, fuel, cache, text[open + 1..close], NoContext)
    requires out.res.Ok? && !out.res.value.Null?
    ensures ResolveText(env, fuel, cache, text) ==
      Out(Ok(text[..open] + PlaceholderText(env.o, out.res.value) + text[close + 1..]), out.cache)
  {
    ResolveTextInterpolates(env, fuel, cache, text);
    InterpolateResolved(env, fuel, cache, text, 0, "", open, close, out);
    var acc := "" + text[0..open] + PlaceholderText(env.o, out.res.value);
    assert acc == text[..open] + PlaceholderText(env.o, out.res.value);
    if close + 1 < |text| {
      InterpolateNoneLeft(env, fuel, out.cache, text, close + 1, acc);
    } else {
      assert acc + text[close + 1..] == acc;
    }
  }

  /** One placeholder between two pieces of plain text that resolves to a
    * value: the text with that value spliced in. */
  lemma SinglePlaceholder(env: Env, fuel: nat, cache: Cache, pre: string, e: string, post: string, out: Out<Value>)
    requires NoOpen(pre) && NoOpen(post) && '}' !in e && StartsWith(e, "$")
    requires out == Resolve(env, fuel, cache, e, NoContext) && out.res.Ok? && !out.res.value.Null?
    ensures ResolveText(env, fuel, cache, pre + "{" + e + "}" + post) ==
      Out(Ok(pre + PlaceholderText(env.o, out.res.value) + post), out.cache)
  {
    var text := pre + "{" + e + "}" + post;
    var c := |pre| + 1 + |e|;
    ScanSingle(pre, e, post);
    assert text[..|pre|] == pre;
    if c + 1 < |text| {
      ScanNoneLeft(text, c + 1, post);
    }
    var inner := text[|pre| + 1..c];
    assert inner == e;
    assert out == Resolve(env, fuel, cache, inner, NoContext);
    OnlyPlaceholderAt(env, fuel, cache, text, |pre|, c, out);
  }

  /** A first placeholder that resolves to null is an error naming it. */
  lemma PlaceholderNullAt(env: Env, fuel: nat, cache: Cache, text: string, open: nat, close: nat, out: Out<Value>)
    requires ScanFrom(text, 0) == Placeholder(open, close)
    requires out == Resolve(env, fuel, cache, text[open + 1..close], NoContext) && out.res == Ok(Null)
    ensures ResolveText(env, fuel, cache, text) == Out(Err(UnresolvedPlaceholder(text[open + 1..close])), out.cache)
  {
    ResolveTextInterpolates(env, fuel, cache, text);
    InterpolateStep(env, fuel, cache, text, 0, "", open, close);
  }

  /** A placeholder that resolves to null is an error naming it. */
  lemma SinglePlaceholderNull(env: Env, fuel: nat, cache: Cache, pre: string, e: string, post: string, out: Out<Value>)
    requires NoOpen(pre) && '}' !in e && StartsWith(e, "$")
    requires out == Resolve(env, fuel, cache, e, NoContext) && out.res == Ok(Null)
    ensures ResolveText(env, fuel, cache, pre + "{" + e + "}" + post) == Out(Err(UnresolvedPlaceholder(e)), out.cache)
  {
    var text := pre + "{" + e + "}" + post;
    var c := |pre| + 1 + |e|;
    ScanSingle(pre, e, post);
    assert text[|pre| + 1..c] == e;
    PlaceholderNullAt(env, fuel, cache, text, |pre|, c, out);
  }

  /** Resolution never forgets an expression it had remembered. */
  lemma {:induction false} ResolveKeepsKeys(env: Env, fuel: nat, cache: Cache, expression: string, context: Context)
    ensures cache.Keys <= Resolve(env, fuel, cache, expression, context).cache.Keys
    decreases fuel, 1, 0
  {
    if Find(cache, expression).Null? {
      if !StartsWith(expression, "$inputs.") && !StartsWith(expression, "$outputs.")
         && !StartsWith(expression, "$sourceDescriptions.") {
        if StartsWith(expression, "$workflows.") {
          var out := LookupById(env, fuel, cache, env.workflows, "workflowId", expression[11..]);
          LookupByIdKeepsKeys(env, fuel, cache, env.workflows, "workflowId", expression[11..]);
          if out.res.Ok? {
            RememberKeepsKeys(env.o, expression, NodeValue(out.res.value), out.cache);
          }
        } else if StartsWith(expression, "$steps.") {
          var out := LookupById(env, fuel, cache, env.steps, "stepId", expression[7..]);
          LookupByIdKeepsKeys(env, fuel, cache, env.steps, "stepId", expression[7..]);
          if out.res.Ok? {
            RememberKeepsKeys(env.o, expression, NodeValue(out.res.value), out.cache);
          }
        }
      }
    }
  }

  lemma RememberKeepsKeys(o: Oracles, expression: string, v: Value, cache: Cache)
    ensures cache.Keys <= Remember(o, expression, v, cache).cache.Keys
  {
  }

  lemma {:induction false} LookupByIdKeepsKeys(env: Env, fuel: nat, cache: Cache, nodes: seq<Json>, field: string,
                                               keyPath: string)
    ensures cache.Keys <= LookupById(env, fuel, cache, nodes, field, keyPath).cache.Keys
    decreases fuel, 0, 1
  {
    var keys := JavaSplit(keyPath, '.');
    if |keys| >= 2 && FirstWithId(nodes, field, keys[0], 0).Some? {
      var i := FirstWithId(nodes, field, keys[0], 0).value;
      FoundValueKeepsKeys(env, fuel, cache, nodes[i], Join(keys[1..], "."));
    }
  }

  lemma {:induction false} FoundValueKeepsKeys(env: Env, fuel: nat, cache: Cache, node: Json, nested: string)
    ensures cache.Keys <= FoundValue(env, fuel, cache, node, nested).cache.Keys
    decreases fuel, 0, 0
  {
    var found := JsonWalk(env.o, cache, node, JavaSplit(nested, '.'));
    if found.Ok? && found.value.Some? && found.value.value.JStr? && fuel > 0 {
      ResolveTextKeepsKeys(env, fuel - 1, cache, found.value.value.s);
    }
  }

  lemma {:induction false} ResolveTextKeepsKeys(env: Env, fuel: nat, cache: Cache, text: string)
    ensures cache.Keys <= ResolveText(env, fuel, cache, text).cache.Keys
    decreases fuel, 3, 0
  {
    if IndexOfOpen(text, 0) != -1 {
      InterpolateKeepsKeys(env, fuel, cache, text, 0, "");
    } else {
      ResolveKeepsKeys(env, fuel, cache, text, NoContext);
    }
  }

  lemma {:induction false} InterpolateKeepsKeys(env: Env, fuel: nat, cache: Cache, text: string, start: nat, acc: string)
    requires start <= |text|
    ensures cache.Keys <= Interpolate(env, fuel, cache, text, start, acc).cache.Keys
    decreases fuel, 2, |text| - start
  {
    if start < |text| {
      var sc := ScanFrom(text, start);
      if sc.Placeholder? {
        var expr := text[sc.open + 1..sc.close];
        var out := Resolve(env, fuel, cache, expr, NoContext);
        ResolveKeepsKeys(env, fuel, cache, expr, NoContext);
        InterpolateResolved(env, fuel, cache, text, start, acc, sc.open, sc.close, out);
        if out.res.Ok? && !out.res.value.Null? {
          var next := acc + text[start..sc.open] + PlaceholderText(env.o, out.res.value);
          var after := sc.close + 1;
          InterpolateKeepsKeys(env, fuel, out.cache, text, after, next);
        }
      } else if sc.NoneLeft? {
        InterpolateNoneLeft(env, fuel, cache, text, start, acc);
      } else {
        InterpolateUnclosed(env, fuel, cache, text, start, acc);
      }
    }
  }

  // ----- the resolver object -------------------------------------------------------

  class SpecExpressionResolver {
    const env: Env
    const provider: ResolvedExpressionProvider

    /** The resolver takes the JSON views of the document and the shared provider. */
    constructor(o: Oracles, doc: Document, inputs: Value, holder: ProviderHolder)
      modifies holder
      ensures env == EnvOf(o, doc, inputs)
      ensures provider == holder.instance
      ensures old(holder.instance) != null ==> provider == old(holder.instance)
      ensures old(holder.instance) != null ==> unchanged(old(holder.instance))
    {
      env := EnvOf(o, doc, inputs);
      var p := holder.GetInstance();
      provider := p;
    }

    /** resolveExpression, recording in the shared provider what the memo rule keeps. */
    method ResolveExpression(fuel: nat, expression: string, context: Context) returns (r: Result<Value>)
      modifies provider
      ensures Out(r, provider.resolved) == Resolve(env, fuel, old(provider.resolved), expression, context)
      decreases fuel, 1, 0
    {
      var resolved := provider.FindResolved(expression);
      if resolved.Null? {
        if StartsWith(expression, "$inputs.") {
          var walked := GetNestedValueInMap(env.inputs, expression[8..]);
          resolved := UnwrapText(walked);
        } else if StartsWith(expression, "$outputs.") {
          var walked := GetNestedValueInMap(NoOutputs, expression[9..]);
          resolved := UnwrapText(walked);
        } else if StartsWith(expression, "$sourceDescriptions.") {
          var found := ResolveSourceDescription(expression[20..]);
          if found.Err? {
            return Err(found.error);
          }
          resolved := NodeValue(found.value);
        } else if StartsWith(expression, "$workflows.") {
          var found := ResolveById(fuel, env.workflows, "workflowId", expression[11..]);
          if found.Err? {
            return Err(found.error);
          }
          resolved := NodeValue(found.value);
        } else if StartsWith(expression, "$steps.") {
          var found := ResolveById(fuel, env.steps, "stepId", expression[7..]);
          if found.Err? {
            return Err(found.error);
          }
          resolved := NodeValue(found.value);
        } else if StartsWith(expression, "$components.") || StartsWith(expression, "#/components") {
          return Err(ComponentsNotHandled(expression));
        } else {
          var http := ResolveHttp(env.o, expression, context);
          if http.Err? {
            return Err(http.error);
          }
          if http.value.Str? {
            return Ok(http.value);
          }
          return Ok(Str(Serialize(env.o, http.value)));
        }
        ApplyMemoRule(expression, resolved);
      }
      r := Ok(resolved);
    }

    /** The memo rule of resolveExpression: a value that is not null and whose
      * text differs from the expression, ignoring case, is recorded. */
    method ApplyMemoRule(expression: string, resolved: Value)
      modifies provider
      ensures Out(Ok(resolved), provider.resolved) == Remember(env.o, expression, resolved, old(provider.resolved))
    {
      if !resolved.Null? && !EqualsIgnoreCase(expression, Show(env.o, resolved)) {
        provider.AddResolved(expression, resolved);
      }
    }

    /** resolveString: interpolation when the text holds a `{$`, otherwise the
      * text resolved once as a whole expression. */
    method ResolveString(fuel: nat, text: string) returns (r: Result<string>)
      modifies provider
      ensures Out(r, provider.resolved) == ResolveText(env, fuel, old(provider.resolved), text)
      decreases fuel, 3, 0
    {
      if IndexOfOpen(text, 0) != -1 {
        r := InterpolateAll(fuel, text);
      } else {
        var resolved := ResolveExpression(fuel, text, NoContext);
        if resolved.Err? {
          return Err(resolved.error);
        }
        r := Ok(Show(env.o, resolved.value));
      }
    }

    /** The interpolation loop over `{$…}` placeholders. */
    method InterpolateAll(fuel: nat, text: string) returns (r: Result<string>)
      modifies provider
      ensures Out(r, provider.resolved) == Interpolate(env, fuel, old(provider.resolved), text, 0, "")
      decreases fuel, 2, 0
    {
      ghost var target := Interpolate(env, fuel, provider.resolved, text, 0, "");
      var result := "";
      var start := 0;
      while start < |text|
        invariant 0 <= start <= |text|
        invariant target == Interpolate(env, fuel, provider.resolved, text, start, result)
        decreases |text| - start
      {
        var done, next, nextStart := InterpolateOnce(fuel, text, start, result);
        if done.Some? {
          return done.value;
        }
        result, start := next, nextStart;
      }
      r := Ok(result);
    }

    /** One turn of the interpolation loop from `start`: the next placeholder
      * resolved and its text appended, or the outcome that ends the loop. */
    method InterpolateOnce(fuel: nat, text: string, start: nat, acc: string)
      returns (done: Option<Result<string>>, next: string, nextStart: nat)
      requires start < |text|
      modifies provider
      ensures done.Some? ==>
        Interpolate(env, fuel, old(provider.resolved), text, start, acc) == Out(done.value, provider.resolved)
      ensures done.None? ==> start < nextStart <= |text|
      ensures done.None? ==>
        Interpolate(env, fuel, old(provider.resolved), text, start, acc) ==
          Interpolate(env, fuel, provider.resolved, text, nextStart, next)
      decreases fuel, 1, 2
    {
      next, nextStart := acc, start + 1;
      var scan := ScanFrom(text, start);
      if scan.NoneLeft? {
        InterpolateNoneLeft(env, fuel, provider.resolved, text, start, acc);
        done := Some(Ok(acc + text[start..]));
      } else if scan.Unclosed? {
        InterpolateUnclosed(env, fuel, provider.resolved, text, start, acc);
        done := Some(Err(UnmatchedBrace(text)));
      } else {
        var failed, appended := ResolvePlaceholder(fuel, text, start, acc, scan.open, scan.close);
        if failed.Some? {
          done := Some(Err(failed.value));
        } else {
          done, next, nextStart := None, appended, scan.close + 1;
        }
      }
    }

    /** One placeholder of the interpolation loop: its expression resolved and
      * its text appended, or the failure that ends the loop. */
    method ResolvePlaceholder(fuel: nat, text: string, start: nat, acc: string, openIndex: nat, closeIndex: nat)
      returns (failed: Option<Failure>, next: string)
      requires start < |text| && ScanFrom(text, start) == Placeholder(openIndex, closeIndex)
      modifies provider
      ensures failed.Some? ==>
        Interpolate(env, fuel, old(provider.resolved), text, start, acc) == Out(Err(failed.value), provider.resolved)
      ensures failed.None? ==>
        Interpolate(env, fuel, old(provider.resolved), text, start, acc) ==
          Interpolate(env, fuel, provider.resolved, text, closeIndex + 1, next)
      decreases fuel, 1, 1
    {
      ghost var before := provider.resolved;
      var expr := text[openIndex + 1..closeIndex];
      var resolved := ResolveExpression(fuel, expr, NoContext);
      InterpolateResolved(env, fuel, before, text, start, acc, openIndex, closeIndex,
                          Out(resolved, provider.resolved));
      next := acc;
      if resolved.Err? {
        failed := Some(resolved.error);
      } else if resolved.value.Null? {
        failed := Some(UnresolvedPlaceholder(expr));
      } else {
        failed := None;
        next := acc + text[start..openIndex] + PlaceholderText(env.o, resolved.value);
      }
    }

    /** resolveSourceDescription: the search loop over the source descriptions. */
    method ResolveSourceDescription(keyPath: string) returns (r: Result<Option<Json>>)
      ensures r == SourceDescriptionLookup(env.o, provider.resolved, env.sourceDescriptions, keyPath)
    {
      var keys := JavaSplit(keyPath, '.');
      if |keys| < 2 {
        return Ok(None);
      }
      var nodes := env.sourceDescriptions;
      var i := 0;
      while i < |nodes|
        invariant 0 <= i <= |nodes|
        invariant forall j :: 0 <= j < i ==> !IdMatches(nodes[j], "name", keys[0])
      {
        if IdMatches(nodes[i], "name", keys[0]) {
          assert FirstWithId(nodes, "name", keys[0], 0) == Some(i);
          r := GetNestedValueInJson(env.o, provider.resolved, nodes[i], Join(keys[1..], "."));
          return;
        }
        i := i + 1;
      }
      r := Ok(None);
    }

    /** resolveSteps and resolveWorkflows: the search loop over the nodes. */
    method ResolveById(fuel: nat, nodes: seq<Json>, field: string, keyPath: string) returns (r: Result<Option<Json>>)
      modifies provider
      ensures Out(r, provider.resolved) == LookupById(env, fuel, old(provider.resolved), nodes, field, keyPath)
      decreases fuel, 0, 1
    {
      var keys := JavaSplit(keyPath, '.');
      if |keys| < 2 {
        return Ok(None);
      }
      var i := 0;
      while i < |nodes|
        invariant 0 <= i <= |nodes|
        invariant forall j :: 0 <= j < i ==> !IdMatches(nodes[j], field, keys[0])
      {
        if IdMatches(nodes[i], field, keys[0]) {
          assert FirstWithId(nodes, field, keys[0], 0) == Some(i);
          r := ResolveFound(fuel, nodes[i], Join(keys[1..], "."));
          return;
        }
        i := i + 1;
      }
      r := Ok(None);
    }

    /** The body of the search loop once the node is found. */
    method ResolveFound(fuel: nat, node: Json, nestedKeyPath: string) returns (r: Result<Option<Json>>)
      modifies provider
      ensures Out(r, provider.resolved) == FoundValue(env, fuel, old(provider.resolved), node, nestedKeyPath)
      decreases fuel, 0, 0
    {
      var resolved := GetNestedValueInJson(env.o, provider.resolved, node, nestedKeyPath);
      if resolved.Err? {
        return Err(resolved.error);
      }
      if resolved.value.Some? && resolved.value.value.JStr? {
        if fuel == 0 {
          return Err(OutOfFuel);
        }
        var text := ResolveString(fuel - 1, resolved.value.value.s);
        if text.Err? {
          return Err(text.error);
        }
        return Ok(Some(JStr(text.value)));
      }
      return Err(NestedNull(nestedKeyPath));
    }
  }
}
