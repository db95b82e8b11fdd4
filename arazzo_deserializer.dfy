/** ArazzoDeserializer as the object it is: a deserializer with its set of
  * workflow ids, whose readers record what they find in a ParseResult step by
  * step.  Every method is proved to leave the ParseResult holding exactly the
  * log the function of the same name in Deserialization computes, and to
  * return the value (or throw the exception) that function gives back. */
module ArazzoDeserializers {
  import opened Wrappers
  import opened Strings
  import opened Json
  import opened Model
  import opened ParseResults
  import opened ComponentsResolver
  import opened ExpressionCache
  import D = Deserialization

  /** A method's result and the log it leaves, in the form the functions give them. */
  function Observed<T>(r: Result<T>, log: ParseLog): Result<D.Parsed<T>> {
    if r.Ok? then Ok(D.Parsed(log, r.value)) else Err(r.error)
  }

  /** The same for the readers that also grow the set of workflow ids. */
  function ObservedTracked<T>(r: Result<T>, log: ParseLog, ids: set<string>): Result<D.Tracked<T>> {
    if r.Ok? then Ok(D.Tracked(log, ids, r.value)) else Err(r.error)
  }

  class ArazzoDeserializer {
    /** The workflow ids read so far, across every document this deserializer reads. */
    var workflowIds: set<string>
    /** The components reference resolver the list readers dereference with. */
    const resolver: ComponentsReferenceResolver
    /** The cache of resolved runtime expressions the resolver reads. */
    const provider: ResolvedExpressionProvider

    constructor (resolver: ComponentsReferenceResolver, provider: ResolvedExpressionProvider)
      ensures this.resolver == resolver && this.provider == provider
      ensures workflowIds == {}
    {
      this.resolver := resolver;
      this.provider := provider;
      workflowIds := {};
    }

    /** What the readers depend on besides the node and the log. */
    ghost function EnvOf(p: ParseResult): D.Env
      reads p, provider
    {
      D.Env(p.Settings(), resolver.o, provider.resolved, resolver.componentsNode)
    }

    // ----- Reading one field -----------------------------------------------------

    method GetString(key: string, node: D.ObjectNode, required: bool, location: string, parseResult: ParseResult)
      returns (value: Option<string>)
      modifies parseResult
      ensures D.Parsed(parseResult.Log(), value) == D.GetString(old(parseResult.Log()), node, key, required, location)
      ensures parseResult.Settings() == old(parseResult.Settings())
    {
      value := None;
      var v := Get(node, key);
      if v.None? {
        if required {
          parseResult.Missing(location, key);
          parseResult.Invalid();
        }
      } else if !IsValueNode(v.value) {
        parseResult.InvalidType(location, key, "string");
      } else if !v.value.JNull? {
        value := Some(AsText(v.value));
      }
    }

    /** getString with the workflow id set: a value already in it is repeated. */
    method GetUniqueString(key: string, node: D.ObjectNode, required: bool, location: string, parseResult: ParseResult)
      returns (value: Option<string>)
      modifies this, parseResult
      ensures D.Tracked(parseResult.Log(), workflowIds, value) ==
        D.GetUniqueString(old(parseResult.Log()), old(workflowIds), node, key, required, location)
      ensures parseResult.Settings() == old(parseResult.Settings())
    {
      value := GetString(key, node, required, location, parseResult);
      if value.Some? {
        if value.value in workflowIds {
          parseResult.Unique(location, "workflowId");
          parseResult.Invalid();
        } else {
          workflowIds := workflowIds + {value.value};
        }
      }
    }

    /** getString, then the test every builder applies before it sets a string
      * field: any string when empty strings are allowed, else a non-blank one. */
    method GetKeptString(key: string, node: D.ObjectNode, required: bool, location: string, parseResult: ParseResult)
      returns (value: Option<string>)
      modifies parseResult
      ensures D.Parsed(parseResult.Log(), value) ==
        D.StringField(old(parseResult.Log()), old(parseResult.Settings()), node, key, required, location)
      ensures parseResult.Settings() == old(parseResult.Settings())
    {
      value := GetString(key, node, required, location, parseResult);
      if !D.Kept(parseResult.Settings(), value) {
        value := None;
      }
    }

    method GetArray(key: string, node: D.ObjectNode, required: bool, location: string, parseResult: ParseResult)
      returns (value: Option<seq<Json>>)
      modifies parseResult
      ensures D.Parsed(parseResult.Log(), value) == D.GetArray(old(parseResult.Log()), node, key, required, location)
      ensures parseResult.Settings() == old(parseResult.Settings())
    {
      value := None;
      var v := Get(node, key);
      if v.None? {
        if required {
          parseResult.Missing(location, key);
          parseResult.Invalid();
        }
      } else if !v.value.JArr? {
        parseResult.InvalidType(location, key, "array");
      } else {
        value := Some(v.value.items);
      }
    }

    method GetObject(key: string, node: D.ObjectNode, required: bool, location: string, parseResult: ParseResult)
      returns (value: Option<Json>)
      modifies parseResult
      ensures D.Parsed(parseResult.Log(), value) == D.GetObject(old(parseResult.Log()), node, key, required, location)
      ensures parseResult.Settings() == old(parseResult.Settings())
    {
      value := None;
      var v := Get(node, key);
      if v.None? {
        if required {
          parseResult.Missing(location, key);
          parseResult.Invalid();
        }
      } else if !v.value.JObj? {
        parseResult.InvalidType(location, key, "object");
        if required {
          parseResult.Invalid();
        }
      } else {
        value := v;
      }
    }

    method GetBoolean(key: string, node: D.ObjectNode, required: bool, location: string, parseResult: ParseResult)
      returns (value: Option<bool>)
      modifies parseResult
      ensures D.Parsed(parseResult.Log(), value) == D.GetBoolean(old(parseResult.Log()), node, key, required, location)
      ensures parseResult.Settings() == old(parseResult.Settings())
    {
      value := None;
      var v := Get(node, key);
      if v.None? {
        if required {
          parseResult.Missing(location, key);
          parseResult.Invalid();
        }
      } else if v.value.JBool? {
        value := Some(v.value.b);
      } else if v.value.JStr? {
        return Some(EqualsIgnoreCase(v.value.s, "true"));
      }
    }

    method GetBigDecimal(key: string, node: D.ObjectNode, required: bool, location: string, parseResult: ParseResult)
      returns (value: Option<int>)
      modifies parseResult
      ensures D.Parsed(parseResult.Log(), value) == D.GetBigDecimal(old(parseResult.Log()), node, key, required, location)
      ensures parseResult.Settings() == old(parseResult.Settings())
    {
      value := None;
      var v := Get(node, key);
      if v.None? {
        if required {
          parseResult.Missing(location, key);
          parseResult.Invalid();
        }
      } else if v.value.JNum? {
        value := Some(v.value.n);
      } else if !IsValueNode(v.value) {
        parseResult.InvalidType(location, key, "double");
      }
    }

    method GetInteger(key: string, node: D.ObjectNode, required: bool, location: string, parseResult: ParseResult)
      returns (value: Option<int>)
      modifies parseResult
      ensures D.Parsed(parseResult.Log(), value) == D.GetInteger(old(parseResult.Log()), node, key, required, location)
      ensures parseResult.Settings() == old(parseResult.Settings())
    {
      value := None;
      var v := Get(node, key);
      if v.None? {
        if required {
          parseResult.Missing(location, key);
          parseResult.Invalid();
        }
      } else if v.value.JNum? {
        if D.IsInt(v.value.n) {
          value := Some(v.value.n);
        }
      } else if !IsValueNode(v.value) {
        parseResult.InvalidType(location, key, "integer");
      }
    }

    /** getAnyType: the field read with the reader its node type calls for. */
    method GetAnyType(nodeKey: string, node: D.ObjectNode, location: string, parseResult: ParseResult)
      returns (value: Option<Json>)
      modifies parseResult
      ensures D.Parsed(parseResult.Log(), value) == D.GetAnyType(old(parseResult.Log()), node, nodeKey, location)
      ensures parseResult.Settings() == old(parseResult.Settings())
    {
      value := None;
      var example := Get(node, nodeKey);
      if example.Some? {
        match example.value {
          case JStr(_) =>
            var s := GetString(nodeKey, node, false, location, parseResult);
            if s.Some? {
              value := Some(JStr(s.value));
            }
          case JNum(_) =>
            var i := GetInteger(nodeKey, node, false, location, parseResult);
            if i.Some? {
              value := Some(JNum(i.value));
            } else {
              var d := GetBigDecimal(nodeKey, node, false, location, parseResult);
              if d.Some? {
                value := Some(JNum(d.value));
              }
            }
          case JObj(_) =>
            value := GetObject(nodeKey, node, false, location, parseResult);
          case JArr(_) =>
            var a := GetArray(nodeKey, node, false, location, parseResult);
            if a.Some? {
              value := Some(JArr(a.value));
            }
          case JBool(_) =>
            var b := GetBoolean(nodeKey, node, false, location, parseResult);
            if b.Some? {
              value := Some(JBool(b.value));
            }
          case JNull =>
            value := example;
        }
      }
    }

    // ----- Keys ------------------------------------------------------------------------

    /** getKeys: the field names collected into an insertion-ordered set. */
    method GetKeys(node: Json) returns (keys: seq<string>)
      ensures keys == D.GetKeys(node)
    {
      var names := FieldNames(node);
      keys := [];
      for i := 0 to |names|
        invariant keys == D.Dedup(names[..i])
      {
        assert names[..i + 1][..i] == names[..i];
        if names[i] !in keys {
          keys := keys + [names[i]];
        }
      }
      assert names[..|names|] == names;
    }

    /** validateReservedKeywords: is the key among the reserved prefixes' keys? */
    method ValidateReservedKeywords(key: string, location: string, parseResult: ParseResult)
      modifies parseResult
      ensures parseResult.Log() == D.ReservedCheck(old(parseResult.Log()), old(parseResult.Settings()), location, key)
      ensures parseResult.Settings() == old(parseResult.Settings())
    {
      var found := false;
      for j := 0 to |D.ReservedKeywords|
        invariant found <==> exists m :: 0 <= m < j && StartsWith(key, D.ReservedKeywords[m])
      {
        if StartsWith(key, D.ReservedKeywords[j]) {
          found := true;
        }
      }
      if !parseResult.oaiAuthor && found {
        parseResult.Reserved(location, key);
      }
    }

    /** The key loop every builder ends with: unknown keys that are no
      * extension are extra, and every key goes through the reserved check. */
    method ValidateKeys(node: Json, allowed: seq<string>, location: string, parseResult: ParseResult)
      modifies parseResult
      ensures parseResult.Log() == D.CheckKeys(old(parseResult.Log()), old(parseResult.Settings()), node, allowed, location)
      ensures parseResult.Settings() == old(parseResult.Settings())
    {
      var keys := GetKeys(node);
      ghost var options := parseResult.Settings();
      for i := 0 to |keys|
        invariant parseResult.Settings() == options
        invariant D.KeyChecks(parseResult.Log(), options, allowed, location, keys, i) ==
          D.KeyChecks(old(parseResult.Log()), options, allowed, location, keys, 0)
      {
        var key := keys[i];
        if key !in allowed && !StartsWith(key, "x-") {
          parseResult.Extra(location, key);
        }
        ValidateReservedKeywords(key, location, parseResult);
      }
    }

    // ----- Extensions --------------------------------------------------------------

    method TryDirectExtensions(node: Json) returns (extensions: Extensions)
      ensures extensions == D.TryDirect(node)
    {
      var keys := GetKeys(node);
      extensions := [];
      for i := 0 to |keys|
        invariant extensions == D.DirectExtensions(node, keys[..i])
      {
        assert keys[..i + 1][..i] == keys[..i];
        var key := keys[i];
        if StartsWith(key, "x-") {
          var v := Get(node, key);
          if v.Some? {
            extensions := extensions + [(key, v.value)];
          }
        }
      }
      assert keys[..|keys|] == keys;
    }

    /** tryUnwrapLookupExtensions: the `extensions` field is cast to an object. */
    method TryUnwrapLookupExtensions(node: D.ObjectNode) returns (r: Result<Extensions>)
      ensures r == (match Get(node, "extensions")
                    case None => Ok([])
                    case Some(e) => if e.JObj? then Ok(D.TryDirect(e)) else Err(Foreign("ClassCastException")))
    {
      var extensionsNode := Get(node, "extensions");
      if extensionsNode.None? {
        return Ok([]);
      }
      if !extensionsNode.value.JObj? {
        return Err(Foreign("ClassCastException"));
      }
      var extensions := TryDirectExtensions(extensionsNode.value);
      return Ok(extensions);
    }

    method GetExtensions(node: D.ObjectNode) returns (r: Result<Extensions>)
      ensures r == D.GetExtensions(node)
    {
      var extensions := TryDirectExtensions(node);
      if extensions == [] {
        r := TryUnwrapLookupExtensions(node);
      } else {
        r := Ok(extensions);
      }
    }

    // ----- Criteria ------------------------------------------------------------------

    method GetCriterion(node: D.ObjectNode, location: string, parseResult: ParseResult) returns (r: Result<Criterion>)
      modifies parseResult
      ensures Observed(r, parseResult.Log()) == D.GetCriterion(old(parseResult.Log()), old(EnvOf(parseResult)), node, location)
      ensures parseResult.Settings() == old(parseResult.Settings())
    {
      var condition := GetKeptString("condition", node, true, location, parseResult);
      var context := GetKeptString("context", node, false, location, parseResult);
      var typeAsString := GetKeptString("type", node, false, location, parseResult);
      var ctype := Simple;
      if typeAsString.Some? {
        var t := D.CriterionTypeOf(UpperAll(typeAsString.value));
        if t.Err? {
          return Err(t.error);
        }
        ctype := t.value;
      }
      var extensions :- GetExtensions(node);
      ValidateKeys(node, D.CriterionKeys, location, parseResult);
      return Ok(Criterion(context, condition, Some(ctype), None, extensions));
    }

    method GetCriteriaList(items: seq<Json>, location: string, parseResult: ParseResult) returns (r: Result<seq<Criterion>>)
      modifies parseResult
      ensures Observed(r, parseResult.Log()) == D.CriteriaFrom(old(parseResult.Log()), old(EnvOf(parseResult)), items, location, 0, [])
      ensures parseResult.Settings() == old(parseResult.Settings())
    {
      ghost var env := EnvOf(parseResult);
      var criteria := [];
      for i := 0 to |items|
        invariant EnvOf(parseResult) == env
        invariant D.CriteriaFrom(parseResult.Log(), env, items, location, i, criteria) ==
          D.CriteriaFrom(old(parseResult.Log()), env, items, location, 0, [])
      {
        if items[i].JObj? {
          var criterion :- GetCriterion(items[i], location, parseResult);
          criteria := criteria + [criterion];
        }
      }
      return Ok(criteria);
    }

    /** An optional criteria array: a list when present and not empty. */
    method GetCriteriaField(key: string, node: D.ObjectNode, location: string, parseResult: ParseResult) returns (r: Result<Option<seq<Criterion>>>)
      modifies parseResult
      ensures Observed(r, parseResult.Log()) == D.CriteriaField(old(parseResult.Log()), old(EnvOf(parseResult)), node, key, location)
      ensures parseResult.Settings() == old(parseResult.Settings())
    {
      var criteriaArray := GetArray(key, node, false, location, parseResult);
      if criteriaArray.Some? && |criteriaArray.value| > 0 {
        var criteria :- GetCriteriaList(criteriaArray.value, location, parseResult);
        return Ok(Some(criteria));
      }
      return Ok(None);
    }

    // ----- Success and failure actions ------------------------------------------------

    method GetSuccessAction(node: D.ObjectNode, location: string, parseResult: ParseResult) returns (r: Result<SuccessAction>)
      modifies parseResult
      ensures Observed(r, parseResult.Log()) == D.GetSuccessAction(old(parseResult.Log()), old(EnvOf(parseResult)), node, location)
      ensures parseResult.Settings() == old(parseResult.Settings())
    {
      var name := GetKeptString("name", node, true, location, parseResult);
      var typeAsString := GetKeptString("type", node, true, location, parseResult);
      var atype := None;
      if typeAsString.Some? {
        var t := D.SuccessActionTypeOf(UpperAll(typeAsString.value));
        if t.Err? {
          return Err(t.error);
        }
        atype := Some(t.value);
      }
      var workflowId := GetKeptString("workflowId", node, false, location, parseResult);
      var stepId := GetKeptString("stepId", node, false, location, parseResult);
      var criteria :- GetCriteriaField("criteria", node, location, parseResult);
      var extensions :- GetExtensions(node);
      ValidateKeys(node, D.SuccessActionKeys, location, parseResult);
      return Ok(SuccessAction(name, atype, workflowId, stepId, criteria, extensions));
    }

    method GetFailureAction(node: D.ObjectNode, location: string, parseResult: ParseResult) returns (r: Result<FailureAction>)
      modifies parseResult
      ensures Observed(r, parseResult.Log()) == D.GetFailureAction(old(parseResult.Log()), old(EnvOf(parseResult)), node, location)
      ensures parseResult.Settings() == old(parseResult.Settings())
    {
      var name := GetKeptString("name", node, true, location, parseResult);
      var typeAsString := GetKeptString("type", node, true, location, parseResult);
      var atype := None;
      if typeAsString.Some? {
        var t := D.FailureActionTypeOf(UpperAll(typeAsString.value));
        if t.Err? {
          return Err(t.error);
        }
        atype := Some(t.value);
      }
      var workflowId := GetKeptString("workflowId", node, false, location, parseResult);
      var stepId := GetKeptString("stepId", node, false, location, parseResult);
      var retryAfter := GetBigDecimal("retryAfter", node, false, location, parseResult);
      var retryLimit := GetInteger("retryLimit", node, false, location, parseResult);
      var criteria :- GetCriteriaField("criteria", node, location, parseResult);
      var extensions :- GetExtensions(node);
      ValidateKeys(node, D.FailureActionKeys, location, parseResult);
      return Ok(FailureAction(name, atype, workflowId, stepId, retryAfter, retryLimit, criteria, extensions));
    }

    method GetReusableObject(node: D.ObjectNode, location: string, parseResult: ParseResult) returns (reusable: ReusableObject)
      modifies parseResult
      ensures D.Parsed(parseResult.Log(), reusable) == D.GetReusableObject(old(parseResult.Log()), old(EnvOf(parseResult)), node, location)
      ensures parseResult.Settings() == old(parseResult.Settings())
    {
      var reference := GetKeptString("reference", node, true, location, parseResult);
      var value := GetKeptString("value", node, false, location, parseResult);
      ValidateKeys(node, D.ReusableObjectKeys, location, parseResult);
      return ReusableObject(reference, value);
    }

    /** The loop body of getSuccessActionList for an object item. */
    method GetSuccessActionItem(item: D.ObjectNode, parseResult: ParseResult) returns (r: Result<Option<SuccessAction>>)
      modifies parseResult
      ensures Observed(r, parseResult.Log()) == D.SuccessActionItem(old(parseResult.Log()), old(EnvOf(parseResult)), item)
      ensures parseResult.Settings() == old(parseResult.Settings())
    {
      if Has(item, "reference") {
        var reusable := GetReusableObject(item, "reusableObject", parseResult);
        if reusable.reference.None? {
          return Err(NullReference("reference"));
        }
        var resolved :- resolver.ResolveComponent(provider, reusable.reference.value);
        if resolved.Some? && resolved.value.JObj? {
          var action :- GetSuccessAction(resolved.value, "successAction", parseResult);
          return Ok(Some(action));
        }
        return Ok(None);
      }
      var action :- GetSuccessAction(item, "successAction", parseResult);
      return Ok(Some(action));
    }

    method GetSuccessActionList(items: seq<Json>, parseResult: ParseResult) returns (r: Result<seq<SuccessAction>>)
      modifies parseResult
      ensures Observed(r, parseResult.Log()) == D.SuccessActionsFrom(old(parseResult.Log()), old(EnvOf(parseResult)), items, 0, [])
      ensures parseResult.Settings() == old(parseResult.Settings())
    {
      ghost var env := EnvOf(parseResult);
      var actions := [];
      for i := 0 to |items|
        invariant EnvOf(parseResult) == env
        invariant D.SuccessActionsFrom(parseResult.Log(), env, items, i, actions) ==
          D.SuccessActionsFrom(old(parseResult.Log()), env, items, 0, [])
      {
        if items[i].JObj? {
          var action :- GetSuccessActionItem(items[i], parseResult);
          if action.Some? {
            actions := actions + [action.value];
          }
        }
      }
      return Ok(actions);
    }

    /** The loop body of getFailureActionList for an object item. */
    method GetFailureActionItem(item: D.ObjectNode, parseResult: ParseResult) returns (r: Result<Option<FailureAction>>)
      modifies parseResult
      ensures Observed(r, parseResult.Log()) == D.FailureActionItem(old(parseResult.Log()), old(EnvOf(parseResult)), item)
      ensures parseResult.Settings() == old(parseResult.Settings())
    {
      if Has(item, "reference") {
        var reusable := GetReusableObject(item, "reusableObject", parseResult);
        if reusable.reference.None? {
          return Err(NullReference("reference"));
        }
        var resolved :- resolver.ResolveComponent(provider, reusable.reference.value);
        if resolved.Some? && resolved.value.JObj? {
          var action :- GetFailureAction(resolved.value, "failureAction", parseResult);
          return Ok(Some(action));
        }
        return Ok(None);
      }
      var action :- GetFailureAction(item, "failureAction", parseResult);
      return Ok(Some(action));
    }

    method GetFailureActionList(items: seq<Json>, parseResult: ParseResult) returns (r: Result<seq<FailureAction>>)
      modifies parseResult
      ensures Observed(r, parseResult.Log()) == D.FailureActionsFrom(old(parseResult.Log()), old(EnvOf(parseResult)), items, 0, [])
      ensures parseResult.Settings() == old(parseResult.Settings())
    {
      ghost var env := EnvOf(parseResult);
      var actions := [];
      for i := 0 to |items|
        invariant EnvOf(parseResult) == env
        invariant D.FailureActionsFrom(parseResult.Log(), env, items, i, actions) ==
          D.FailureActionsFrom(old(parseResult.Log()), env, items, 0, [])
      {
        if items[i].JObj? {
          var action :- GetFailureActionItem(items[i], parseResult);
          if action.Some? {
            actions := actions + [action.value];
          }
        }
      }
      return Ok(actions);
    }

    method GetSuccessActionsField(key: string, node: D.ObjectNode, location: string, parseResult: ParseResult) returns (r: Result<Option<seq<SuccessAction>>>)
      modifies parseResult
      ensures Observed(r, parseResult.Log()) == D.SuccessActionsField(old(parseResult.Log()), old(EnvOf(parseResult)), node, key, location)
      ensures parseResult.Settings() == old(parseResult.Settings())
    {
      var actionArray := GetArray(key, node, false, location, parseResult);
      if actionArray.Some? && |actionArray.value| > 0 {
        var actions :- GetSuccessActionList(actionArray.value, parseResult);
        return Ok(Some(actions));
      }
      return Ok(None);
    }

    method GetFailureActionsField(key: string, node: D.ObjectNode, location: string, parseResult: ParseResult) returns (r: Result<Option<seq<FailureAction>>>)
      modifies parseResult
      ensures Observed(r, parseResult.Log()) == D.FailureActionsField(old(parseResult.Log()), old(EnvOf(parseResult)), node, key, location)
      ensures parseResult.Settings() == old(parseResult.Settings())
    {
      var actionArray := GetArray(key, node, false, location, parseResult);
      if actionArray.Some? && |actionArray.value| > 0 {
        var actions :- GetFailureActionList(actionArray.value, parseResult);
        return Ok(Some(actions));
      }
      return Ok(None);
    }

    // ----- Parameters ------------------------------------------------------------------

    method GetParameter(obj: D.ObjectNode, location: string, parseResult: ParseResult) returns (r: Result<Parameter>)
      modifies parseResult
      ensures Observed(r, parseResult.Log()) == D.GetParameter(old(parseResult.Log()), old(EnvOf(parseResult)), obj, location)
      ensures parseResult.Settings() == old(parseResult.Settings())
    {
      var name := GetKeptString("name", obj, true, location, parseResult);
      var inName := GetKeptString("in", obj, false, location, parseResult);
      var pin := None;
      if inName.Some? {
        var p := D.ParameterInOf(UpperAll(inName.value));
        if p.Err? {
          return Err(p.error);
        }
        pin := Some(p.value);
      }
      var value := GetAnyType("value", obj, location, parseResult);
      if value.None? {
        parseResult.Missing(location, "value");
      }
      var extensions :- GetExtensions(obj);
      ValidateKeys(obj, D.ParameterKeys, location, parseResult);
      return Ok(Parameter(name, pin, value, None, extensions));
    }

    /** The loop body of getParameterList for an object item. */
    method GetParameterItem(item: D.ObjectNode, parseResult: ParseResult) returns (r: Result<Option<Parameter>>)
      modifies parseResult
      ensures Observed(r, parseResult.Log()) == D.ParameterItem(old(parseResult.Log()), old(EnvOf(parseResult)), item)
      ensures parseResult.Settings() == old(parseResult.Settings())
    {
      if Has(item, "reference") {
        var reusable := GetReusableObject(item, "reusableObject", parseResult);
        if reusable.reference.None? {
          return Err(NullReference("reference"));
        }
        var resolved :- resolver.ResolveComponent(provider, reusable.reference.value);
        if resolved.Some? && resolved.value.JObj? {
          var parameter :- GetParameter(resolved.value, "parameter", parseResult);
          if !IsEmpty(reusable.value) {
            parameter := parameter.(value := Some(JStr(reusable.value.value)));
          }
          return Ok(Some(parameter));
        }
        return Ok(None);
      }
      var parameter :- GetParameter(item, "parameter", parseResult);
      return Ok(Some(parameter));
    }

    method GetParameterList(items: seq<Json>, parseResult: ParseResult) returns (r: Result<seq<Parameter>>)
      modifies parseResult
      ensures Observed(r, parseResult.Log()) == D.ParametersFrom(old(parseResult.Log()), old(EnvOf(parseResult)), items, 0, [])
      ensures parseResult.Settings() == old(parseResult.Settings())
    {
      ghost var env := EnvOf(parseResult);
      var parameters := [];
      for i := 0 to |items|
        invariant EnvOf(parseResult) == env
        invariant D.ParametersFrom(parseResult.Log(), env, items, i, parameters) ==
          D.ParametersFrom(old(parseResult.Log()), env, items, 0, [])
      {
        if items[i].JObj? {
          var parameter :- GetParameterItem(items[i], parseResult);
          if parameter.Some? {
            parameters := parameters + [parameter.value];
          }
        }
      }
      return Ok(parameters);
    }

    method GetParametersField(node: D.ObjectNode, location: string, parseResult: ParseResult) returns (r: Result<Option<seq<Parameter>>>)
      modifies parseResult
      ensures Observed(r, parseResult.Log()) == D.ParametersField(old(parseResult.Log()), old(EnvOf(parseResult)), node, location)
      ensures parseResult.Settings() == old(parseResult.Settings())
    {
      var parameterArray := GetArray("parameters", node, false, location, parseResult);
      if parameterArray.Some? && |parameterArray.value| > 0 {
        var parameters :- GetParameterList(parameterArray.value, parseResult);
        return Ok(Some(parameters));
      }
      return Ok(None);
    }

    // ----- Request bodies ---------------------------------------------------------------

    method GetPlayload(node: Json, location: string, parseResult: ParseResult) returns (payload: Option<Json>)
      modifies parseResult
      ensures D.Parsed(parseResult.Log(), payload) == D.GetPayload(old(parseResult.Log()), node, location)
      ensures parseResult.Settings() == old(parseResult.Settings())
    {
      if node.JStr? {
        return Some(JStr(node.s));
      } else if node.JObj? {
        return Some(node);
      }
      parseResult.InvalidType(location, "payload: ", "string|object");
      parseResult.Invalid();
      return None;
    }

    method GetPayloadReplacementObject(node: D.ObjectNode, location: string, parseResult: ParseResult) returns (r: Result<PayloadReplacement>)
      modifies parseResult
      ensures Observed(r, parseResult.Log()) == D.GetPayloadReplacement(old(parseResult.Log()), old(EnvOf(parseResult)), node, location)
      ensures parseResult.Settings() == old(parseResult.Settings())
    {
      var target := GetKeptString("target", node, true, location, parseResult);
      var valueNode := Get(node, "value");
      var value := if valueNode.Some? then Some(JStr(AsText(valueNode.value))) else None;
      var extensions :- GetExtensions(node);
      ValidateKeys(node, D.PayloadReplacementKeys, location, parseResult);
      return Ok(PayloadReplacement(target, value, extensions));
    }

    method GetPayloadReplacementObjectList(items: seq<Json>, parseResult: ParseResult) returns (r: Result<seq<PayloadReplacement>>)
      modifies parseResult
      ensures Observed(r, parseResult.Log()) == D.PayloadReplacementsFrom(old(parseResult.Log()), old(EnvOf(parseResult)), items, 0, [])
      ensures parseResult.Settings() == old(parseResult.Settings())
    {
      ghost var env := EnvOf(parseResult);
      var replacements := [];
      for i := 0 to |items|
        invariant EnvOf(parseResult) == env
        invariant D.PayloadReplacementsFrom(parseResult.Log(), env, items, i, replacements) ==
          D.PayloadReplacementsFrom(old(parseResult.Log()), env, items, 0, [])
      {
        if items[i].JObj? {
          ghost var before := parseResult.Log();
          var replacement :- GetPayloadReplacementObject(items[i], "payloadReplacementObject", parseResult);
          assert D.PayloadReplacementsFrom(before, env, items, i, replacements) ==
            D.PayloadReplacementsFrom(parseResult.Log(), env, items, i + 1, replacements + [replacement]);
          replacements := replacements + [replacement];
        }
      }
      return Ok(replacements);
    }

    method GetRequestBody(node: D.ObjectNode, location: string, parseResult: ParseResult) returns (r: Result<RequestBody>)
      modifies parseResult
      ensures Observed(r, parseResult.Log()) == D.GetRequestBody(old(parseResult.Log()), old(EnvOf(parseResult)), node, location)
      ensures parseResult.Settings() == old(parseResult.Settings())
    {
      var contentType := GetKeptString("contentType", node, false, location, parseResult);
      var payloadNode := Get(node, "payload");
      var payload := None;
      if payloadNode.Some? {
        payload := GetPlayload(payloadNode.value, location, parseResult);
      }
      var replacementArray := GetArray("replacements", node, false, location, parseResult);
      var replacements := None;
      if replacementArray.Some? {
        var xs :- GetPayloadReplacementObjectList(replacementArray.value, parseResult);
        replacements := Some(xs);
      }
      var extensions :- GetExtensions(node);
      ValidateKeys(node, D.RequestBodyKeys, location, parseResult);
      return Ok(RequestBody(contentType, payload, replacements, extensions));
    }

    method GetRequestBodyField(node: D.ObjectNode, location: string, parseResult: ParseResult) returns (r: Result<Option<RequestBody>>)
      modifies parseResult
      ensures Observed(r, parseResult.Log()) == D.RequestBodyField(old(parseResult.Log()), old(EnvOf(parseResult)), node, location)
      ensures parseResult.Settings() == old(parseResult.Settings())
    {
      var requestBodyObj := GetObject("requestBody", node, false, location, parseResult);
      if requestBodyObj.Some? {
        var body :- GetRequestBody(requestBodyObj.value, "requestBody", parseResult);
        return Ok(Some(body));
      }
      return Ok(None);
    }

    // ----- Outputs and dependsOn --------------------------------------------------------

    /** getOutputs: every field's text, one entry per key. */
    method GetOutputs(node: D.ObjectNode) returns (outputs: Outputs)
      ensures outputs == D.GetOutputs(node)
    {
      var keys := GetKeys(node);
      outputs := [];
      for i := 0 to |keys|
        invariant outputs == D.OutputsOver(node, keys[..i])
      {
        assert keys[..i + 1][..i] == keys[..i];
        var nodeValue := Get(node, keys[i]);
        if nodeValue.Some? {
          outputs := outputs + [(keys[i], AsText(nodeValue.value))];
        }
      }
      assert keys[..|keys|] == keys;
    }

    method GetOutputsField(node: D.ObjectNode, location: string, parseResult: ParseResult) returns (outputs: Option<Outputs>)
      modifies parseResult
      ensures D.Parsed(parseResult.Log(), outputs) == D.OutputsField(old(parseResult.Log()), node, location)
      ensures parseResult.Settings() == old(parseResult.Settings())
    {
      var outputsObj := GetObject("outputs", node, false, location, parseResult);
      outputs := None;
      if outputsObj.Some? {
        var o := GetOutputs(outputsObj.value);
        outputs := Some(o);
      }
    }

    /** getDependsOnList: the string items' text, in order. */
    method GetDependsOnList(items: seq<Json>) returns (dependsOn: seq<string>)
      ensures dependsOn == D.DependsOn(items)
    {
      dependsOn := [];
      for i := 0 to |items|
        invariant dependsOn == D.DependsOn(items[..i])
      {
        assert items[..i + 1][..i] == items[..i];
        if items[i].JStr? {
          dependsOn := dependsOn + [items[i].s];
        }
      }
      assert items[..|items|] == items;
    }

    // ----- Steps and workflows -----------------------------------------------------------

    method GetStep(node: D.ObjectNode, location: string, parseResult: ParseResult) returns (r: Result<Step>)
      modifies parseResult
      ensures Observed(r, parseResult.Log()) == D.GetStep(old(parseResult.Log()), old(EnvOf(parseResult)), node, location)
      ensures parseResult.Settings() == old(parseResult.Settings())
    {
      var description := GetKeptString("description", node, false, location, parseResult);
      var stepId := GetKeptString("stepId", node, true, location, parseResult);
      var operationId := GetKeptString("operationId", node, false, location, parseResult);
      var operationPath := GetKeptString("operationPath", node, false, location, parseResult);
      var workflowId := GetKeptString("workflowId", node, false, location, parseResult);
      var parameters :- GetParametersField(node, location, parseResult);
      var requestBody :- GetRequestBodyField(node, location, parseResult);
      var successCriteria :- GetCriteriaField("successCriteria", node, location, parseResult);
      var onSuccess :- GetSuccessActionsField("onSuccess", node, location, parseResult);
      var onFailure :- GetFailureActionsField("onFailure", node, location, parseResult);
      var outputs := GetOutputsField(node, location, parseResult);
      var extensions :- GetExtensions(node);
      ValidateKeys(node, D.StepKeys, location, parseResult);
      return Ok(Step(description, stepId, operationId, operationPath, workflowId, parameters, requestBody,
                     successCriteria, onSuccess, onFailure, outputs, extensions));
    }

    method GetStepsList(items: seq<Json>, parseResult: ParseResult) returns (r: Result<seq<Step>>)
      modifies parseResult
      ensures Observed(r, parseResult.Log()) == D.StepsFrom(old(parseResult.Log()), old(EnvOf(parseResult)), items, 0, [])
      ensures parseResult.Settings() == old(parseResult.Settings())
    {
      ghost var env := EnvOf(parseResult);
      var steps := [];
      for i := 0 to |items|
        invariant EnvOf(parseResult) == env
        invariant D.StepsFrom(parseResult.Log(), env, items, i, steps) == D.StepsFrom(old(parseResult.Log()), env, items, 0, [])
      {
        if items[i].JObj? {
          ghost var before := parseResult.Log();
          var step :- GetStep(items[i], "step", parseResult);
          assert D.StepsFrom(before, env, items, i, steps) == D.StepsFrom(parseResult.Log(), env, items, i + 1, steps + [step]);
          steps := steps + [step];
        }
      }
      return Ok(steps);
    }

    method GetDependsOnField(node: D.ObjectNode, location: string, parseResult: ParseResult) returns (dependsOn: Option<seq<string>>)
      modifies parseResult
      ensures D.Parsed(parseResult.Log(), dependsOn) == D.DependsOnField(old(parseResult.Log()), node, location)
      ensures parseResult.Settings() == old(parseResult.Settings())
    {
      var dependsOnArray := GetArray("dependsOn", node, false, location, parseResult);
      dependsOn := None;
      if dependsOnArray.Some? && |dependsOnArray.value| > 0 {
        var d := GetDependsOnList(dependsOnArray.value);
        dependsOn := Some(d);
      }
    }

    method GetStepsField(node: D.ObjectNode, location: string, parseResult: ParseResult) returns (r: Result<seq<Step>>)
      modifies parseResult
      ensures Observed(r, parseResult.Log()) == D.StepsField(old(parseResult.Log()), old(EnvOf(parseResult)), node, location)
      ensures parseResult.Settings() == old(parseResult.Settings())
    {
      var stepsArray := GetArray("steps", node, true, location, parseResult);
      if stepsArray.Some? && |stepsArray.value| > 0 {
        r := GetStepsList(stepsArray.value, parseResult);
        return;
      }
      return Ok([]);
    }

    method GetWorkflow(node: D.ObjectNode, location: string, parseResult: ParseResult) returns (r: Result<Workflow>)
      modifies this, parseResult
      ensures ObservedTracked(r, parseResult.Log(), workflowIds) ==
        D.GetWorkflow(old(parseResult.Log()), old(workflowIds), old(EnvOf(parseResult)), node, location)
      ensures parseResult.Settings() == old(parseResult.Settings())
    {
      var workflowId := GetUniqueString("workflowId", node, true, location, parseResult);
      if !D.Kept(parseResult.Settings(), workflowId) {
        workflowId := None;
      }
      var summary := GetKeptString("summary", node, false, location, parseResult);
      var description := GetKeptString("description", node, false, location, parseResult);
      var inputs := GetObject("inputs", node, false, location, parseResult);
      var dependsOn := GetDependsOnField(node, location, parseResult);
      var steps :- GetStepsField(node, location, parseResult);
      var successActions :- GetSuccessActionsField("successActions", node, location, parseResult);
      var failureActions :- GetFailureActionsField("failureActions", node, location, parseResult);
      var outputs := GetOutputsField(node, location, parseResult);
      var parameters :- GetParametersField(node, location, parseResult);
      var extensions :- GetExtensions(node);
      ValidateKeys(node, D.WorkflowKeys, location, parseResult);
      return Ok(Workflow(workflowId, summary, description, inputs, dependsOn, steps, successActions, failureActions,
                         outputs, parameters, extensions));
    }

    method GetWorkflowList(items: seq<Json>, parseResult: ParseResult) returns (r: Result<seq<Workflow>>)
      modifies this, parseResult
      ensures ObservedTracked(r, parseResult.Log(), workflowIds) ==
        D.WorkflowsFrom(old(parseResult.Log()), old(workflowIds), old(EnvOf(parseResult)), items, 0, [])
      ensures parseResult.Settings() == old(parseResult.Settings())
    {
      ghost var env := EnvOf(parseResult);
      var workflows := [];
      for i := 0 to |items|
        invariant EnvOf(parseResult) == env
        invariant D.WorkflowsFrom(parseResult.Log(), workflowIds, env, items, i, workflows) ==
          D.WorkflowsFrom(old(parseResult.Log()), old(workflowIds), env, items, 0, [])
      {
        if items[i].JObj? {
          ghost var before := parseResult.Log();
          ghost var ids := workflowIds;
          var workflow :- GetWorkflow(items[i], "workflow", parseResult);
          assert D.WorkflowsFrom(before, ids, env, items, i, workflows) ==
            D.WorkflowsFrom(parseResult.Log(), workflowIds, env, items, i + 1, workflows + [workflow]);
          workflows := workflows + [workflow];
        }
      }
      return Ok(workflows);
    }

    // ----- Source descriptions and info ---------------------------------------------------

    method GetSourceDescription(node: D.ObjectNode, location: string, parseResult: ParseResult) returns (r: Result<SourceDescription>)
      modifies parseResult
      ensures Observed(r, parseResult.Log()) == D.GetSourceDescription(old(parseResult.Log()), old(EnvOf(parseResult)), node, location)
      ensures parseResult.Settings() == old(parseResult.Settings())
    {
      var name := GetKeptString("name", node, true, location, parseResult);
      var typeAsString := GetKeptString("type", node, false, location, parseResult);
      var stype := None;
      if typeAsString.Some? {
        var t := D.SourceTypeOf(UpperAll(typeAsString.value));
        if t.Err? {
          return Err(t.error);
        }
        stype := Some(t.value);
      }
      var url := GetKeptString("url", node, true, location, parseResult);
      var extensions :- GetExtensions(node);
      ValidateKeys(node, D.SourceDescriptionKeys, location, parseResult);
      return Ok(SourceDescription(name, url, stype, None, None, extensions));
    }

    method GetSourceDescriptionList(items: seq<Json>, parseResult: ParseResult) returns (r: Result<seq<SourceDescription>>)
      modifies parseResult
      ensures Observed(r, parseResult.Log()) == D.SourceDescriptionsFrom(old(parseResult.Log()), old(EnvOf(parseResult)), items, 0, [])
      ensures parseResult.Settings() == old(parseResult.Settings())
    {
      ghost var env := EnvOf(parseResult);
      var sources := [];
      for i := 0 to |items|
        invariant EnvOf(parseResult) == env
        invariant D.SourceDescriptionsFrom(parseResult.Log(), env, items, i, sources) ==
          D.SourceDescriptionsFrom(old(parseResult.Log()), env, items, 0, [])
      {
        if items[i].JObj? {
          ghost var before := parseResult.Log();
          var source :- GetSourceDescription(items[i], "sourceDescription", parseResult);
          assert D.SourceDescriptionsFrom(before, env, items, i, sources) ==
            D.SourceDescriptionsFrom(parseResult.Log(), env, items, i + 1, sources + [source]);
          sources := sources + [source];
        }
      }
      return Ok(sources);
    }

    method GetInfo(node: D.ObjectNode, location: string, parseResult: ParseResult) returns (r: Result<Info>)
      modifies parseResult
      ensures Observed(r, parseResult.Log()) == D.GetInfo(old(parseResult.Log()), old(EnvOf(parseResult)), node, location)
      ensures parseResult.Settings() == old(parseResult.Settings())
    {
      var title := GetKeptString("title", node, true, location, parseResult);
      var description := GetKeptString("description", node, false, location, parseResult);
      var summary := GetString("summary", node, false, location, parseResult);
      if !IsNotBlank(summary) {
        summary := None;
      }
      var version := GetKeptString("version", node, true, location, parseResult);
      var extensions :- GetExtensions(node);
      ValidateKeys(node, D.InfoKeys, location, parseResult);
      return Ok(Info(title, summary, description, version, extensions));
    }

    // ----- Components ------------------------------------------------------------------

    /** getSchemas: object-valued entries are schemas, others an invalid type. */
    method GetSchemas(node: Json, location: string, parseResult: ParseResult, underComponents: bool)
      returns (schemas: seq<(string, Json)>)
      modifies parseResult
      ensures D.Parsed(parseResult.Log(), schemas) ==
        D.SchemasFrom(old(parseResult.Log()), node, location, underComponents, D.GetKeys(node), 0, [])
      ensures parseResult.Settings() == old(parseResult.Settings())
    {
      var keys := GetKeys(node);
      schemas := [];
      for i := 0 to |keys|
        invariant parseResult.Settings() == old(parseResult.Settings())
        invariant D.SchemasFrom(parseResult.Log(), node, location, underComponents, keys, i, schemas) ==
          D.SchemasFrom(old(parseResult.Log()), node, location, underComponents, keys, 0, [])
      {
        var schemaName := keys[i];
        if underComponents && !IsComponentKey(schemaName) {
          parseResult.Warning(location, D.SchemaNameWarning(schemaName));
        }
        var schemaValue := Get(node, schemaName);
        if schemaValue.Some? && schemaValue.value.JObj? {
          schemas := schemas + [(schemaName, schemaValue.value)];
        } else {
          parseResult.InvalidType(location, schemaName, "object");
        }
      }
    }

    /** The loop body of getParameters for one key. */
    method GetParameterEntry(obj: Json, key: string, parseResult: ParseResult, underComponents: bool) returns (r: Result<Option<Parameter>>)
      modifies parseResult
      ensures Observed(r, parseResult.Log()) == D.NamedParameterEntry(old(parseResult.Log()), old(EnvOf(parseResult)), obj, underComponents, key)
      ensures parseResult.Settings() == old(parseResult.Settings())
    {
      if underComponents && !IsComponentKey(key) {
        parseResult.Warning("parameter", D.NameWarning(key));
      }
      var value := Get(obj, key);
      if value.Some? && value.value.JObj? {
        var x :- GetParameter(value.value, "parameter", parseResult);
        return Ok(Some(x));
      }
      return Ok(None);
    }

    /** The loop body of getSuccessActions for one key. */
    method GetSuccessActionEntry(node: Json, key: string, parseResult: ParseResult, underComponents: bool) returns (r: Result<Option<SuccessAction>>)
      modifies parseResult
      ensures Observed(r, parseResult.Log()) == D.NamedSuccessActionEntry(old(parseResult.Log()), old(EnvOf(parseResult)), node, underComponents, key)
      ensures parseResult.Settings() == old(parseResult.Settings())
    {
      if underComponents && !IsComponentKey(key) {
        parseResult.Warning("successAction", D.NameWarning(key));
      }
      var value := Get(node, key);
      if value.Some? && value.value.JObj? {
        var x :- GetSuccessAction(value.value, "successAction", parseResult);
        return Ok(Some(x));
      }
      return Ok(None);
    }

    /** The loop body of getFailureActions for one key. */
    method GetFailureActionEntry(node: Json, key: string, parseResult: ParseResult, underComponents: bool) returns (r: Result<Option<FailureAction>>)
      modifies parseResult
      ensures Observed(r, parseResult.Log()) == D.NamedFailureActionEntry(old(parseResult.Log()), old(EnvOf(parseResult)), node, underComponents, key)
      ensures parseResult.Settings() == old(parseResult.Settings())
    {
      if underComponents && !IsComponentKey(key) {
        parseResult.Warning("failureAction", D.NameWarning(key));
      }
      var value := Get(node, key);
      if value.Some? && value.value.JObj? {
        var x :- GetFailureAction(value.value, "failureAction", parseResult);
        return Ok(Some(x));
      }
      return Ok(None);
    }

    method GetParameters(obj: Json, parseResult: ParseResult, underComponents: bool)
      returns (r: Result<seq<(string, Parameter)>>)
      modifies parseResult
      ensures Observed(r, parseResult.Log()) ==
        D.NamedParametersFrom(old(parseResult.Log()), old(EnvOf(parseResult)), obj, underComponents, D.GetKeys(obj), 0, [])
      ensures parseResult.Settings() == old(parseResult.Settings())
    {
      ghost var env := EnvOf(parseResult);
      var keys := GetKeys(obj);
      var parameters := [];
      for i := 0 to |keys|
        invariant EnvOf(parseResult) == env
        invariant D.NamedParametersFrom(parseResult.Log(), env, obj, underComponents, keys, i, parameters) ==
          D.NamedParametersFrom(old(parseResult.Log()), env, obj, underComponents, keys, 0, [])
      {
        var parameterName := keys[i];
        var parameter :- GetParameterEntry(obj, parameterName, parseResult, underComponents);
        if parameter.Some? {
          parameters := parameters + [(parameterName, parameter.value)];
        }
      }
      return Ok(parameters);
    }

    /** One turn of the getSuccessActions loop: the entry of keys[i] read and
      * appended to the actions read so far. */
    method AppendSuccessAction(node: Json, keys: seq<string>, i: nat, actions: seq<(string, SuccessAction)>,
                               parseResult: ParseResult, underComponents: bool)
      returns (r: Result<seq<(string, SuccessAction)>>)
      requires i < |keys|
      modifies parseResult
      ensures D.NamedSuccessActionsFrom(old(parseResult.Log()), old(EnvOf(parseResult)), node, underComponents, keys, i, actions) ==
        if r.Err? then Err(r.error)
        else D.NamedSuccessActionsFrom(parseResult.Log(), old(EnvOf(parseResult)), node, underComponents, keys, i + 1, r.value)
      ensures parseResult.Settings() == old(parseResult.Settings())
    {
      var entry := GetSuccessActionEntry(node, keys[i], parseResult, underComponents);
      if entry.Err? {
        return Err(entry.error);
      }
      r := Ok(if entry.value.Some? then actions + [(keys[i], entry.value.value)] else actions);
    }

    method GetSuccessActions(node: Json, parseResult: ParseResult, underComponents: bool)
      returns (r: Result<seq<(string, SuccessAction)>>)
      modifies parseResult
      ensures Observed(r, parseResult.Log()) ==
        D.NamedSuccessActionsFrom(old(parseResult.Log()), old(EnvOf(parseResult)), node, underComponents, D.GetKeys(node), 0, [])
      ensures parseResult.Settings() == old(parseResult.Settings())
    {
      ghost var env := EnvOf(parseResult);
      var keys := GetKeys(node);
      var actions := [];
      for i := 0 to |keys|
        invariant EnvOf(parseResult) == env
        invariant D.NamedSuccessActionsFrom(parseResult.Log(), env, node, underComponents, keys, i, actions) ==
          D.NamedSuccessActionsFrom(old(parseResult.Log()), env, node, underComponents, keys, 0, [])
      {
        actions :- AppendSuccessAction(node, keys, i, actions, parseResult, underComponents);
      }
      return Ok(actions);
    }

    /** One turn of the getFailureActions loop: the entry of keys[i] read and
      * appended to the actions read so far. */
    method AppendFailureAction(node: Json, keys: seq<string>, i: nat, actions: seq<(string, FailureAction)>,
                               parseResult: ParseResult, underComponents: bool)
      returns (r: Result<seq<(string, FailureAction)>>)
      requires i < |keys|
      modifies parseResult
      ensures D.NamedFailureActionsFrom(old(parseResult.Log()), old(EnvOf(parseResult)), node, underComponents, keys, i, actions) ==
        if r.Err? then Err(r.error)
        else D.NamedFailureActionsFrom(parseResult.Log(), old(EnvOf(parseResult)), node, underComponents, keys, i + 1, r.value)
      ensures parseResult.Settings() == old(parseResult.Settings())
    {
      var entry := GetFailureActionEntry(node, keys[i], parseResult, underComponents);
      if entry.Err? {
        return Err(entry.error);
      }
      r := Ok(if entry.value.Some? then actions + [(keys[i], entry.value.value)] else actions);
    }

    method GetFailureActions(node: Json, parseResult: ParseResult, underComponents: bool)
      returns (r: Result<seq<(string, FailureAction)>>)
      modifies parseResult
      ensures Observed(r, parseResult.Log()) ==
        D.NamedFailureActionsFrom(old(parseResult.Log()), old(EnvOf(parseResult)), node, underComponents, D.GetKeys(node), 0, [])
      ensures parseResult.Settings() == old(parseResult.Settings())
    {
      ghost var env := EnvOf(parseResult);
      var keys := GetKeys(node);
      var actions := [];
      for i := 0 to |keys|
        invariant EnvOf(parseResult) == env
        invariant D.NamedFailureActionsFrom(parseResult.Log(), env, node, underComponents, keys, i, actions) ==
          D.NamedFailureActionsFrom(old(parseResult.Log()), env, node, underComponents, keys, 0, [])
      {
        actions :- AppendFailureAction(node, keys, i, actions, parseResult, underComponents);
      }
      return Ok(actions);
    }

    method GetInputsField(node: D.ObjectNode, location: string, parseResult: ParseResult) returns (inputs: Option<seq<(string, Json)>>)
      modifies parseResult
      ensures D.Parsed(parseResult.Log(), inputs) == D.InputsField(old(parseResult.Log()), node, location)
      ensures parseResult.Settings() == old(parseResult.Settings())
    {
      var inputsObj := GetObject("inputs", node, false, location, parseResult);
      inputs := None;
      if inputsObj.Some? {
        var s := GetSchemas(inputsObj.value, location + ".inputs", parseResult, true);
        inputs := Some(s);
      }
    }

    method GetParametersObjectField(node: D.ObjectNode, location: string, parseResult: ParseResult) returns (r: Result<Option<seq<(string, Parameter)>>>)
      modifies parseResult
      ensures Observed(r, parseResult.Log()) == D.NamedParametersField(old(parseResult.Log()), old(EnvOf(parseResult)), node, location)
      ensures parseResult.Settings() == old(parseResult.Settings())
    {
      var parametersObj := GetObject("parameters", node, false, location, parseResult);
      if parametersObj.Some? {
        var parameters :- GetParameters(parametersObj.value, parseResult, true);
        return Ok(Some(parameters));
      }
      return Ok(None);
    }

    method GetSuccessActionsObjectField(node: D.ObjectNode, location: string, parseResult: ParseResult) returns (r: Result<Option<seq<(string, SuccessAction)>>>)
      modifies parseResult
      ensures Observed(r, parseResult.Log()) == D.NamedSuccessActionsField(old(parseResult.Log()), old(EnvOf(parseResult)), node, location)
      ensures parseResult.Settings() == old(parseResult.Settings())
    {
      var actionsObj := GetObject("successActions", node, false, location, parseResult);
      if actionsObj.Some? {
        var actions :- GetSuccessActions(actionsObj.value, parseResult, true);
        return Ok(Some(actions));
      }
      return Ok(None);
    }

    method GetFailureActionsObjectField(node: D.ObjectNode, location: string, parseResult: ParseResult) returns (r: Result<Option<seq<(string, FailureAction)>>>)
      modifies parseResult
      ensures Observed(r, parseResult.Log()) == D.NamedFailureActionsField(old(parseResult.Log()), old(EnvOf(parseResult)), node, location)
      ensures parseResult.Settings() == old(parseResult.Settings())
    {
      var actionsObj := GetObject("failureActions", node, false, location, parseResult);
      if actionsObj.Some? {
        var actions :- GetFailureActions(actionsObj.value, parseResult, true);
        return Ok(Some(actions));
      }
      return Ok(None);
    }

    method GetComponents(node: D.ObjectNode, location: string, parseResult: ParseResult) returns (r: Result<Components>)
      modifies parseResult
      ensures Observed(r, parseResult.Log()) == D.GetComponents(old(parseResult.Log()), old(EnvOf(parseResult)), node, location)
      ensures parseResult.Settings() == old(parseResult.Settings())
    {
      var inputs := GetInputsField(node, location, parseResult);
      var parameters :- GetParametersObjectField(node, location, parseResult);
      var successActions :- GetSuccessActionsObjectField(node, location, parseResult);
      var failureActions :- GetFailureActionsObjectField(node, location, parseResult);
      var extensions :- GetExtensions(node);
      ValidateKeys(node, D.ComponentsKeys, location, parseResult);
      return Ok(Components(inputs, parameters, successActions, failureActions, extensions));
    }

    // ----- parseRoot -------------------------------------------------------------------

    method ParseRoot(rootNode: Json, parseResult: ParseResult) returns (r: Result<Option<Document>>)
      modifies this, parseResult
      ensures ObservedTracked(r, parseResult.Log(), workflowIds) ==
        D.ParseRoot(old(parseResult.Log()), old(workflowIds), old(EnvOf(parseResult)), rootNode)
      ensures parseResult.Settings() == old(parseResult.Settings())
    {
      var location := "arazzo";
      if !rootNode.JObj? {
        parseResult.InvalidType(location, "arazzo", "object");
        parseResult.Invalid();
        return Ok(None);
      }
      var node: D.ObjectNode := rootNode;
      var value := GetString("arazzo", node, true, location, parseResult);
      if value.None? || !StartsWith(value.value, "1.0") {
        return Ok(None);
      }
      var document :- ParseDocument(node, value.value, parseResult);
      return Ok(Some(document));
    }

    method GetInfoField(node: D.ObjectNode, parseResult: ParseResult) returns (r: Result<Option<Info>>)
      modifies parseResult
      ensures Observed(r, parseResult.Log()) == D.InfoField(old(parseResult.Log()), old(EnvOf(parseResult)), node)
      ensures parseResult.Settings() == old(parseResult.Settings())
    {
      var infoObj := GetObject("info", node, true, "arazzo", parseResult);
      if infoObj.Some? {
        var info :- GetInfo(infoObj.value, "info", parseResult);
        return Ok(Some(info));
      }
      return Ok(None);
    }

    method GetSourcesField(node: D.ObjectNode, parseResult: ParseResult) returns (r: Result<seq<SourceDescription>>)
      modifies parseResult
      ensures Observed(r, parseResult.Log()) == D.SourcesField(old(parseResult.Log()), old(EnvOf(parseResult)), node)
      ensures parseResult.Settings() == old(parseResult.Settings())
    {
      var sourcesArray := GetArray("sourceDescriptions", node, true, "arazzo", parseResult);
      if sourcesArray.Some? && |sourcesArray.value| > 0 {
        r := GetSourceDescriptionList(sourcesArray.value, parseResult);
        return;
      }
      return Ok([]);
    }

    method GetWorkflowsField(node: D.ObjectNode, parseResult: ParseResult) returns (r: Result<seq<Workflow>>)
      modifies this, parseResult
      ensures ObservedTracked(r, parseResult.Log(), workflowIds) ==
        D.WorkflowsField(old(parseResult.Log()), old(workflowIds), old(EnvOf(parseResult)), node)
      ensures parseResult.Settings() == old(parseResult.Settings())
    {
      var workflowsArray := GetArray("workflows", node, true, "arazzo", parseResult);
      if workflowsArray.Some? && |workflowsArray.value| > 0 {
        r := GetWorkflowList(workflowsArray.value, parseResult);
        return;
      }
      return Ok([]);
    }

    method GetComponentsField(node: D.ObjectNode, parseResult: ParseResult) returns (r: Result<Option<Components>>)
      modifies parseResult
      ensures Observed(r, parseResult.Log()) == D.ComponentsField(old(parseResult.Log()), old(EnvOf(parseResult)), node)
      ensures parseResult.Settings() == old(parseResult.Settings())
    {
      var componentsObj := GetObject("components", node, false, "components", parseResult);
      if componentsObj.Some? {
        var components :- GetComponents(componentsObj.value, "components", parseResult);
        return Ok(Some(components));
      }
      return Ok(None);
    }

    /** The rest of parseRoot once the version is known to be 1.0.x. */
    method ParseDocument(node: D.ObjectNode, version: string, parseResult: ParseResult) returns (r: Result<Document>)
      modifies this, parseResult
      ensures ObservedTracked(r, parseResult.Log(), workflowIds) ==
        D.ParseDocument(old(parseResult.Log()), old(workflowIds), old(EnvOf(parseResult)), node, version)
      ensures parseResult.Settings() == old(parseResult.Settings())
    {
      var location := "arazzo";
      var info :- GetInfoField(node, parseResult);
      var sources :- GetSourcesField(node, parseResult);
      var workflows :- GetWorkflowsField(node, parseResult);
      var components :- GetComponentsField(node, parseResult);
      var extensions :- GetExtensions(node);
      ValidateKeys(node, D.RootKeys, location, parseResult);
      return Ok(Document(Some(version), info, sources, workflows, components, extensions));
    }
  }
}
