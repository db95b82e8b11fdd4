/** ResolvedExpressionProvider: the memo of resolved runtime expressions that
  * every resolver and executor of one run shares. */
module ExpressionCache {
  import opened Values

  type Cache = map<string, Value>

  /** Map.get: a key never added reads as null. */
  function Find(c: Cache, expression: string): Value {
    if expression in c then c[expression] else Null
  }

  class ResolvedExpressionProvider {
    var resolved: Cache

    /** The cache starts empty. */
    constructor()
      ensures resolved == map[]
    {
      resolved := map[];
    }

    /** Map.put: the last writer wins. */
    method AddResolved(expression: string, v: Value)
      modifies this
      ensures resolved == old(resolved)[expression := v]
      ensures FindResolved(expression) == v
      ensures forall k :: k != expression ==> FindResolved(k) == old(FindResolved(k))
    {
      resolved := resolved[expression := v];
    }

    function FindResolved(expression: string): Value
      reads this
    {
      Find(resolved, expression)
    }
  }

  /** The lazily assigned static `instance` field of the provider class. */
  class ProviderHolder {
    var instance: ResolvedExpressionProvider?

    constructor()
      ensures instance == null
    {
      instance := null;
    }

    /** getInstance: creates the provider on the first call and returns that
      * same object on every later call. */
    method GetInstance() returns (r: ResolvedExpressionProvider)
      modifies this
      ensures old(instance) != null ==> r == old(instance)
      ensures old(instance) == null ==> fresh(r) && r.resolved == map[]
      ensures instance == r
    {
      if instance == null {
        instance := new ResolvedExpressionProvider();
      }
      r := instance;
    }
  }
}
