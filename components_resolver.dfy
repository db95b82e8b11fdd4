/** ComponentsReferenceResolver: looks up a Reusable Object's reference in the
  * document's `components` node, either as a JSON Pointer (`#/components/…`)
  * or as a runtime expression (`$components.…`). */
module ComponentsResolver {
  import opened Wrappers
  import opened Strings
  import opened Json
  import opened Values
  import opened ExpressionCache
  import opened ResolverUtils

  const PointerPrefix := "#/components"
  const ExpressionPrefix := "$components."

  function NowhereFailure(pointer: string): Failure {
    IllegalState("JSON pointer into nowhere: pointer=" + pointer)
  }

  function InvalidExpression(expression: string): Failure {
    IllegalArgument("Invalid expression: " + expression)
  }

  function UnsupportedReference(reference: string): Failure {
    Unsupported("Unsupported reference: " + reference)
  }

  /** resolveJsonPointer: every `#/components` is removed and the rest is a
    * JSON Pointer into the components node; it must arrive somewhere. */
  function PointerLookup(components: Json, reference: string): Result<Json> {
    var pointer := Replace(reference, PointerPrefix, "");
    match At(components, pointer)
      case Err(e) => Err(e)
      case Ok(None) => Err(NowhereFailure(pointer))
      case Ok(Some(n)) => Ok(n)
  }

  /** resolveRuntimeExpression: the dotted fields after `$components`, read
    * with the nested-value walk (None: a field is missing). */
  function ExpressionLookup(o: Oracles, cache: Cache, components: Json, expression: string): Result<Option<Json>> {
    var keys := JavaSplit(expression, '.');
    if |keys| < 2 || keys[0] != "$components" then Err(InvalidExpression(expression))
    else JsonWalk(o, cache, components, JavaSplit(Join(keys[1..], "."), '.'))
  }

  /** resolveComponent. */
  function ComponentOf(o: Oracles, cache: Cache, components: Json, reference: string): Result<Option<Json>> {
    if StartsWith(reference, PointerPrefix) then
      match PointerLookup(components, reference)
        case Err(e) => Err(e)
        case Ok(n) => Ok(Some(n))
    else if StartsWith(reference, ExpressionPrefix) then ExpressionLookup(o, cache, components, reference)
    else Err(UnsupportedReference(reference))
  }

  // ----- properties ------------------------------------------------------------------

  /** A reference of neither form is unsupported. */
  lemma OtherReferenceUnsupported(o: Oracles, cache: Cache, components: Json, reference: string)
    requires reference == "" || (reference[0] != '#' && reference[0] != '$')
    ensures ComponentOf(o, cache, components, reference) == Err(UnsupportedReference(reference))
  {
    StartsWithFirst(reference, PointerPrefix);
    StartsWithFirst(reference, ExpressionPrefix);
  }

  /** The pointer form names exactly the node JSON Pointer evaluation reaches
    * (section 4 of RFC 6901) from the components node, and is an error
    * naming the pointer when it reaches nothing. */
  lemma {:induction false} PointerReference(o: Oracles, cache: Cache, components: Json, names: seq<string>)
    requires forall i :: 0 <= i < |names| ==> '#' !in names[i]
    ensures var r := ComponentOf(o, cache, components, PointerPrefix + PointerOf(names));
      match Evaluate(components, names)
        case Some(n) => r == Ok(Some(n))
        case None => r == Err(NowhereFailure(PointerOf(names)))
  {
    var p := PointerOf(names);
    var reference := PointerPrefix + p;
    assert StartsWith(reference, PointerPrefix) by {
      assert reference[..|PointerPrefix|] == PointerPrefix;
    }
    PointerOfFree(names, '#');
    ReplaceLeading(PointerPrefix, p, "");
    ReplaceAbsent(p, PointerPrefix, "");
    assert Replace(reference, PointerPrefix, "") == p;
    PointerOfRoundTrip(names);
  }

  /** A pointer spelled from names without `c` (other than `/` and `~`,
    * which escaping replaces) has no `c` in it. */
  lemma {:induction false} PointerOfFree(names: seq<string>, c: char)
    requires c != '/' && c != '~' && c != '0' && c != '1'
    requires forall i :: 0 <= i < |names| ==> c !in names[i]
    ensures c !in PointerOf(names)
    decreases |names|
  {
    if |names| > 0 {
      EscapeFree(names[0], c);
      PointerOfFree(names[1..], c);
    }
  }

  lemma {:induction false} EscapeFree(t: string, c: char)
    requires c != '/' && c != '~' && c != '0' && c != '1' && c !in t
    ensures c !in Escape(t)
    decreases |t|
  {
    if |t| > 0 {
      EscapeFree(t[1..], c);
    }
  }

  /** The first key of a `$components.` expression is always `$components`,
    * so the expression is invalid exactly when nothing but dots follows the
    * prefix. */
  lemma ExpressionInvalidIff(o: Oracles, cache: Cache, components: Json, rest: string)
    ensures var reference := ExpressionPrefix + rest;
      ComponentOf(o, cache, components, reference) == Err(InvalidExpression(reference)) <==>
      forall i :: 0 <= i < |rest| ==> rest[i] == '.'
  {
    var head := "$components";
    var reference := ExpressionPrefix + rest;
    assert reference == head + ['.'] + rest;
    assert StartsWith(reference, ExpressionPrefix) by {
      assert reference[..|ExpressionPrefix|] == ExpressionPrefix;
    }
    StartsWithFirst(reference, PointerPrefix);
    assert '.' in reference by {
      assert reference[11] == '.';
    }
    PiecesSplitFirst(head, rest, '.');
    var ps := Pieces(reference, '.');
    assert ps == [head] + Pieces(rest, '.');
    var keys := JavaSplit(reference, '.');
    assert keys == DropTrailingEmpty(ps);
    assert ps[0] == head;
    OnlyDots(rest);
    OneKeyIff(head, Pieces(rest, '.'));
    var walk := JsonWalk(o, cache, components, JavaSplit(Join(keys[1..], "."), '.'));
    assert walk.Err? ==> !walk.error.IllegalArgument? by {
      JsonWalkErrors(o, cache, components, JavaSplit(Join(keys[1..], "."), '.'));
    }
  }

  /** The pieces of a text are all empty exactly when it is all delimiters. */
  lemma {:induction false} OnlyDots(rest: string)
    ensures (forall i :: 0 <= i < |rest| ==> rest[i] == '.') <==>
      (forall k :: 0 <= k < |Pieces(rest, '.')| ==> Pieces(rest, '.')[k] == "")
    decreases |rest|
  {
    if |rest| > 0 {
      OnlyDots(rest[1..]);
      var tail := Pieces(rest[1..], '.');
      if rest[0] == '.' {
        var ps := Pieces(rest, '.');
        assert ps == [""] + tail;
        assert forall k :: 1 <= k < |ps| ==> ps[k] == tail[k - 1];
        assert forall k :: 0 <= k < |tail| ==> tail[k] == ps[k + 1];
        assert forall i :: 0 <= i < |rest[1..]| ==> rest[1..][i] == rest[i + 1];
      } else {
        assert Pieces(rest, '.')[0] != "";
      }
    }
  }

  /** A non-empty first piece followed by pieces that String.split drops. */
  lemma OneKeyIff(head: string, tail: seq<string>)
    requires head != ""
    ensures var keys := DropTrailingEmpty([head] + tail);
      |keys| > 0 && (|keys| < 2 <==> forall k :: 0 <= k < |tail| ==> tail[k] == "")
  {
    var ps := [head] + tail;
    var keys := DropTrailingEmpty(ps);
    assert ps[0] != "";
    assert forall j :: 1 <= j < |keys| ==> keys[j] == tail[j - 1];
    assert forall k :: 0 <= k < |tail| ==> ps[k + 1] == tail[k];
  }

  /** Both notations name the same component: for a path of non-empty,
    * expression-free field names, `$components.a.b` reads what
    * `#/components/a/b` points to. */
  lemma BothFormsAgree(o: Oracles, cache: Cache, components: Json, names: seq<string>)
    requires |names| > 0 && DollarFree(components)
    requires forall i :: 0 <= i < |names| ==>
      names[i] != "" && '.' !in names[i] && '#' !in names[i]
    requires FieldWalk(components, names).Some?
    ensures ComponentOf(o, cache, components, ExpressionPrefix + Join(names, ".")) ==
            ComponentOf(o, cache, components, PointerPrefix + PointerOf(names))
    ensures ComponentOf(o, cache, components, ExpressionPrefix + Join(names, ".")) ==
            Ok(FieldWalk(components, names))
  {
    var e := ExpressionPrefix + Join(names, ".");
    var all := ["$components"] + names;
    assert all[|all| - 1] == names[|names| - 1];
    assert Join(all, ".") == e by {
      assert all[1..] == names;
    }
    JavaSplitJoin(all, '.');
    assert JavaSplit(e, '.')[1..] == names;
    JavaSplitJoin(names, '.');
    assert StartsWith(e, ExpressionPrefix) by {
      assert e[..|ExpressionPrefix|] == ExpressionPrefix;
    }
    assert !StartsWith(e, PointerPrefix) by {
      assert e[0] != PointerPrefix[0];
    }
    JsonWalkDollarFree(o, cache, components, names);
    FieldWalkIsPointer(components, names);
    PointerReference(o, cache, components, names);
  }

  // ----- the singleton ---------------------------------------------------------------

  class ComponentsReferenceResolver {
    const o: Oracles
    const componentsNode: Json

    constructor(o: Oracles, componentsNode: Json)
      ensures this.o == o && this.componentsNode == componentsNode
    {
      this.o := o;
      this.componentsNode := componentsNode;
    }

    /** resolveComponent, reading expression-valued nodes from the shared provider. */
    method ResolveComponent(provider: ResolvedExpressionProvider, reference: string) returns (r: Result<Option<Json>>)
      ensures r == ComponentOf(o, provider.resolved, componentsNode, reference)
    {
      if StartsWith(reference, PointerPrefix) {
        var pointer := Replace(reference, PointerPrefix, "");
        var result := At(componentsNode, pointer);
        if result.Err? {
          return Err(result.error);
        }
        if result.value.None? {
          return Err(NowhereFailure(pointer));
        }
        return Ok(result.value);
      } else if StartsWith(reference, ExpressionPrefix) {
        var keys := JavaSplit(reference, '.');
        if |keys| < 2 || keys[0] != "$components" {
          return Err(InvalidExpression(reference));
        }
        r := GetNestedValueInJson(o, provider.resolved, componentsNode, Join(keys[1..], "."));
        return;
      }
      return Err(UnsupportedReference(reference));
    }
  }

  /** The static `instance` field of the resolver class. */
  class ComponentsResolverHolder {
    var instance: ComponentsReferenceResolver?

    constructor()
      ensures instance == null
    {
      instance := null;
    }

    /** getInstance: the first call fixes the components node; every later
      * call returns that same resolver and ignores the node passed. */
    method GetInstance(o: Oracles, componentsNode: Json) returns (r: ComponentsReferenceResolver)
      modifies this
      ensures old(instance) != null ==> r == old(instance)
      ensures old(instance) == null ==> fresh(r) && r.o == o && r.componentsNode == componentsNode
      ensures instance == r
    {
      if instance == null {
        instance := new ComponentsReferenceResolver(o, componentsNode);
      }
      r := instance;
    }
  }
}
