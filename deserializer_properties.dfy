/** What the deserializer promises about whole readers: when parseRoot gives
  * no document, what a criterion's type defaults to, and what a parameter
  * without a value leaves in the log. */
module DeserializationProperties {
  import opened Wrappers
  import opened Strings
  import opened Json
  import opened Model
  import opened ValidationResults
  import opened ParseResults
  import opened Deserialization

  /** A root that is no object is an invalid type at "arazzo", makes the result
    * invalid and gives no document. */
  lemma NonObjectRootGivesNothing(log: ParseLog, ids: set<string>, env: Env, root: Json)
    requires !root.JObj?
    ensures var r := ParseRoot(log, ids, env, root);
      && r.Ok? && r.value.value.None? && r.value.log.invalid && r.value.ids == ids
      && Find(r.value.log.invalidTypes, Location("arazzo", "arazzo")) == Some("object")
  {
    RecordingRules(log, "arazzo", "arazzo", "object");
  }

  /** A root without `arazzo` records it as missing, is invalid, and gives no
    * document. */
  lemma MissingVersionGivesNothing(log: ParseLog, ids: set<string>, env: Env, root: ObjectNode)
    requires !Has(root, "arazzo")
    ensures var r := ParseRoot(log, ids, env, root);
      && r.Ok? && r.value.value.None? && r.value.log.invalid
      && Location("arazzo", "arazzo") in r.value.log.missing
  {
    var version := GetString(log, root, "arazzo", true, "arazzo");
    assert version.value.None?;
  }

  /** A version that is not 1.0.x gives no document and records nothing more
    * than reading it did. */
  lemma OtherVersionGivesNothing(log: ParseLog, ids: set<string>, env: Env, root: ObjectNode)
    requires Has(root, "arazzo")
    requires var v := Get(root, "arazzo").value; IsValueNode(v) && !v.JNull? && !StartsWith(AsText(v), "1.0")
    ensures ParseRoot(log, ids, env, root) == Ok(Tracked(log, ids, None))
  {
    var version := GetString(log, root, "arazzo", true, "arazzo");
    assert version.value == Some(AsText(Get(root, "arazzo").value));
  }

  /** A document comes back only for an object root whose `arazzo` text starts
    * with "1.0", and the document carries that text. */
  lemma DocumentHasVersion(log: ParseLog, ids: set<string>, env: Env, root: Json)
    requires ParseRoot(log, ids, env, root).Ok? && ParseRoot(log, ids, env, root).value.value.Some?
    ensures root.JObj? && Has(root, "arazzo")
    ensures var d := ParseRoot(log, ids, env, root).value.value.value;
      && d.arazzo == Some(AsText(Get(root, "arazzo").value)) && StartsWith(d.arazzo.value, "1.0")
  {
    var version := GetString(log, root, "arazzo", true, "arazzo");
    var doc := ParseDocument(version.log, ids, env, root, version.value.value);
    assert doc.Ok? && doc.value.value.arazzo == Some(version.value.value);
  }

  /** The `type` text a criterion keeps, as the reader sees it. */
  function KeptType(env: Env, node: ObjectNode, location: string): Option<string> {
    StringField(Fresh, env.options, node, "type", false, location).value
  }

  /** A criterion without a kept `type` is SIMPLE; one with a type has the
    * constant its upper-cased text names, and an unknown name throws. */
  lemma CriterionTypeRule(log: ParseLog, env: Env, node: ObjectNode, location: string)
    ensures var r := GetCriterion(log, env, node, location);
      && (r.Ok? && KeptType(env, node, location).None? ==> r.value.value.ctype == Some(Simple))
      && (r.Ok? && KeptType(env, node, location).Some? ==>
            r.value.value.ctype.Some?
            && CriterionTypeName(r.value.value.ctype.value) == UpperAll(KeptType(env, node, location).value))
      && (KeptType(env, node, location).Some? && CriterionTypeOf(UpperAll(KeptType(env, node, location).value)).Err? ==>
            r == Err(EnumFailure("Criterion.CriterionType", UpperAll(KeptType(env, node, location).value))))
  {
    var condition := StringField(log, env.options, node, "condition", true, location);
    var context := StringField(condition.log, env.options, node, "context", false, location);
    var typeName := StringField(context.log, env.options, node, "type", false, location);
    assert typeName.value == KeptType(env, node, location);
  }

  /** A parameter whose `value` field is absent has its value recorded as
    * missing; the result does not turn invalid for that. */
  lemma ParameterWithoutValueIsMissing(log: ParseLog, env: Env, node: ObjectNode, location: string)
    requires GetParameter(log, env, node, location).Ok?
    ensures var p := GetParameter(log, env, node, location).value;
      && (p.value.value.None? <==> !Has(node, "value"))
      && (!Has(node, "value") ==> Location(location, "value") in p.log.missing)
  {
    var name := StringField(log, env.options, node, "name", true, location);
    var inName := StringField(name.log, env.options, node, "in", false, location);
    var value := GetAnyType(inName.log, node, "value", location);
    var valueLog := if value.value.None? then value.log.Missing(location, "value") else value.log;
    RecordingRules(value.log, location, "value", "");
    CheckKeysRules(valueLog, env.options, node, ParameterKeys, location);
  }

  /** A workflowId read twice is recorded as not unique and the result turns
    * invalid; the set of ids seen grows by every id read. */
  lemma RepeatedWorkflowId(log: ParseLog, ids: set<string>, node: ObjectNode, location: string)
    requires Has(node, "workflowId") && IsValueNode(Get(node, "workflowId").value) && !Get(node, "workflowId").value.JNull?
    ensures var first := GetUniqueString(log, ids, node, "workflowId", true, location);
      var second := GetUniqueString(first.log, first.ids, node, "workflowId", true, location);
      && first.value.Some? && first.value.value in first.ids
      && second.log.invalid && Location(location, "workflowId") in second.log.unique
  {
    var first := GetUniqueString(log, ids, node, "workflowId", true, location);
    var second := GetUniqueString(first.log, first.ids, node, "workflowId", true, location);
    assert second.value == first.value;
    assert second.log.unique == first.log.unique + [Location(location, "workflowId")];
  }
}
