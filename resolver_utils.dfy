/** ResolverUtils.getNestedValue, both overloads: a walk along a dotted key
  * path through Java maps, and one through a JSON tree that re-reads
  * expression-valued nodes from the cache. */
module ResolverUtils {
  import opened Wrappers
  import opened Strings
  import opened Json
  import opened Values
  import opened ExpressionCache

  // ----- the Map overload ----------------------------------------------------

  /** Following the keys one by one; a step from a value that is not a map is null. */
  function MapWalk(current: Value, keys: seq<string>): Value
    decreases |keys|
  {
    if |keys| == 0 then current
    else if current.Dict? then
      MapWalk(if keys[0] in current.entries then current.entries[keys[0]] else Null, keys[1..])
    else Null
  }

  /** A walk along a concatenated path is the walk along the second part
    * from where the first part ends. */
  lemma {:induction false} MapWalkAppend(v: Value, ks1: seq<string>, ks2: seq<string>)
    ensures MapWalk(v, ks1 + ks2) == MapWalk(MapWalk(v, ks1), ks2)
    decreases |ks1|
  {
    if |ks1| == 0 {
      assert ks1 + ks2 == ks2;
    } else {
      assert (ks1 + ks2)[0] == ks1[0];
      assert (ks1 + ks2)[1..] == ks1[1..] + ks2;
      if v.Dict? {
        MapWalkAppend(if ks1[0] in v.entries then v.entries[ks1[0]] else Null, ks1[1..], ks2);
      } else {
        assert MapWalk(Null, ks2) == Null;
      }
    }
  }

  /** A path with a key the map does not have reads as null. */
  lemma MapWalkMissing(m: map<string, Value>, key: string, rest: seq<string>)
    requires key !in m
    ensures MapWalk(Dict(m), [key] + rest) == Null
  {
    assert ([key] + rest)[1..] == rest;
    if |rest| > 0 {
      assert MapWalk(Null, rest) == Null;
    }
  }

  /** getNestedValue(Map, keyPath). */
  method GetNestedValueInMap(resolveMap: Value, keyPath: string) returns (r: Value)
    ensures r == MapWalk(resolveMap, JavaSplit(keyPath, '.'))
    ensures JavaSplit(keyPath, '.') == [keyPath] && resolveMap.Dict? ==>
      r == (if keyPath in resolveMap.entries then resolveMap.entries[keyPath] else Null)
  {
    var keys := JavaSplit(keyPath, '.');
    var current := resolveMap;
    var i := 0;
    while i < |keys|
      invariant 0 <= i <= |keys|
      invariant MapWalk(resolveMap, keys) == MapWalk(current, keys[i..])
    {
      if current.Dict? {
        current := if keys[i] in current.entries then current.entries[keys[i]] else Null;
        assert keys[i..][1..] == keys[i + 1..];
      } else {
        assert MapWalk(current, keys[i..]) == Null;
        return Null;
      }
      i := i + 1;
    }
    r := current;
  }

  // ----- the JsonNode overload --------------------------------------------------

  /** parseNestedNode: JSON when the text opens an object or array, else XML. */
  function ParseNested(o: Oracles, text: string): Result<Json> {
    var parsed := if StartsWith(text, "{") || StartsWith(text, "[") then o.parseJson(text) else o.parseXml(text);
    if parsed.Some? then Ok(parsed.value)
    else Err(IllegalState("nested node is neither JSON nor XML: " + text))
  }

  /** One step of the JSON walk: the child node, replaced by its cached
    * resolution when its text holds a `$`. */
  function StepInto(o: Oracles, cache: Cache, child: Json): Result<Json> {
    var text := AsText(child);
    if Contains(text, "$") then
      var resolved := Find(cache, text);
      if resolved.Null? then Err(NullReference("resolved expression " + text))
      else ParseNested(o, Show(o, resolved))
    else Ok(child)
  }

  /** The JSON walk: Ok(None) once a key is missing. */
  function JsonWalk(o: Oracles, cache: Cache, node: Json, keys: seq<string>): Result<Option<Json>>
    decreases |keys|
  {
    if |keys| == 0 then Ok(Some(node))
    else if Has(node, keys[0]) then
      match StepInto(o, cache, Get(node, keys[0]).value)
        case Err(e) => Err(e)
        case Ok(next) => JsonWalk(o, cache, next, keys[1..])
    else Ok(None)
  }

  /** The walk fails only on a null or unparsable resolution. */
  lemma {:induction false} JsonWalkErrors(o: Oracles, cache: Cache, node: Json, keys: seq<string>)
    ensures var r := JsonWalk(o, cache, node, keys);
      r.Err? ==> r.error.NullReference? || r.error.IllegalState?
    decreases |keys|
  {
    if |keys| > 0 && Has(node, keys[0]) {
      var next := StepInto(o, cache, Get(node, keys[0]).value);
      if next.Ok? {
        JsonWalkErrors(o, cache, next.value, keys[1..]);
      }
    }
  }

  /** The walk through plain object fields, without the cache. */
  function FieldWalk(node: Json, keys: seq<string>): Option<Json>
    decreases |keys|
  {
    if |keys| == 0 then Some(node)
    else if Has(node, keys[0]) then FieldWalk(Get(node, keys[0]).value, keys[1..])
    else None
  }

  /** No node of the tree has a `$` in its text. */
  predicate DollarFree(j: Json)
    decreases j
  {
    match j
      case JArr(items) => forall i :: 0 <= i < |items| ==> DollarFree(items[i])
      case JObj(fields) => forall i :: 0 <= i < |fields| ==> DollarFree(fields[i].1)
      case _ => !Contains(AsText(j), "$")
  }

  lemma LookupDollarFree(j: Json, key: string)
    requires DollarFree(j) && Has(j, key)
    ensures DollarFree(Get(j, key).value) && !Contains(AsText(Get(j, key).value), "$")
  {
    var v := Get(j, key).value;
    var i :| 0 <= i < |j.fields| && j.fields[i] == (key, v);
    assert DollarFree(j.fields[i].1);
    if v.JStr? {
      assert !Contains(AsText(v), "$");
    } else if !v.JArr? && !v.JObj?  {
      assert !Contains(AsText(v), "$");
    } else {
      assert AsText(v) == "";
    }
  }

  /** On a tree without expression text the walk never consults the cache:
    * it is the plain walk through object fields. */
  lemma {:induction false} JsonWalkDollarFree(o: Oracles, cache: Cache, node: Json, keys: seq<string>)
    requires DollarFree(node)
    ensures JsonWalk(o, cache, node, keys) == Ok(FieldWalk(node, keys))
    decreases |keys|
  {
    if |keys| > 0 && Has(node, keys[0]) {
      LookupDollarFree(node, keys[0]);
      JsonWalkDollarFree(o, cache, Get(node, keys[0]).value, keys[1..]);
    }
  }

  /** A field walk that arrives somewhere is the JSON Pointer evaluation of the
    * same tokens (section 4 of RFC 6901). */
  lemma {:induction false} FieldWalkIsPointer(node: Json, keys: seq<string>)
    requires FieldWalk(node, keys).Some?
    ensures Evaluate(node, keys) == FieldWalk(node, keys)
    decreases |keys|
  {
    if |keys| > 0 {
      FieldWalkIsPointer(Get(node, keys[0]).value, keys[1..]);
    }
  }

  /** getNestedValue(JsonNode, keyPath). */
  method GetNestedValueInJson(o: Oracles, cache: Cache, resolveNode: Json, keyPath: string)
    returns (r: Result<Option<Json>>)
    ensures r == JsonWalk(o, cache, resolveNode, JavaSplit(keyPath, '.'))
  {
    var keys := JavaSplit(keyPath, '.');
    var currentNode := resolveNode;
    var i := 0;
    while i < |keys|
      invariant 0 <= i <= |keys|
      invariant JsonWalk(o, cache, resolveNode, keys) == JsonWalk(o, cache, currentNode, keys[i..])
    {
      assert keys[i..][0] == keys[i] && keys[i..][1..] == keys[i + 1..];
      if Has(currentNode, keys[i]) {
        currentNode := Get(currentNode, keys[i]).value;
        var text := AsText(currentNode);
        if Contains(text, "$") {
          var resolved := Find(cache, text);
          if resolved.Null? {
            return Err(NullReference("resolved expression " + text));
          }
          var parsed := ParseNested(o, Show(o, resolved));
          if parsed.Err? {
            return Err(parsed.error);
          }
          currentNode := parsed.value;
        }
      } else {
        return Ok(None);
      }
      i := i + 1;
    }
    r := Ok(Some(currentNode));
  }
}
