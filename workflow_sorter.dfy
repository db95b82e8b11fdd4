/** WorkflowSorterUtils: the workflows of a document put in an order in which
  * every workflow comes after the workflows it depends on, by a depth-first
  * search with a visited set and a recursion stack.
  *
  * The functions specify the search on values; the class below holds the
  * three collections the search mutates (the visited ids, the recursion
  * stack and the sorted list) and is proved to agree with them. */
module WorkflowSorter {
  import opened Wrappers
  import opened Model

  const Cyclic := IllegalState("Unexpected cyclic dependency")

  /** The dependencies of a workflow; an absent list is none. */
  function Deps(wf: Workflow): seq<string> {
    wf.dependsOn.GetOr([])
  }

  /** The search state: the visited ids and the workflows sorted so far. */
  datatype Dfs = Dfs(visited: set<string>, sorted: seq<Workflow>)

  // ----- what the search keeps ----------------------------------------------------------

  /** Some workflow of the list has this id. */
  predicate InSorted(sorted: seq<Workflow>, id: string) {
    exists q :: 0 <= q < |sorted| && sorted[q].workflowId == Some(id)
  }

  /** Every dependency of a workflow comes before it. */
  predicate DepsBefore(sorted: seq<Workflow>) {
    forall p, d :: 0 <= p < |sorted| && d in Deps(sorted[p]) ==> InSorted(sorted[..p], d)
  }

  /** No id occurs twice. */
  predicate IdsDistinct(sorted: seq<Workflow>) {
    forall p, q :: 0 <= p < q < |sorted| ==> sorted[p].workflowId != sorted[q].workflowId
  }

  /** The ids of the workflows from position n on. */
  function IdsFrom(sorted: seq<Workflow>, n: nat): set<string> {
    set q | n <= q < |sorted| && sorted[q].workflowId.Some? :: sorted[q].workflowId.value
  }

  /** The map holds each workflow under its own id. */
  predicate Keyed(m: map<string, Workflow>) {
    forall k :: k in m ==> m[k].workflowId == Some(k)
  }

  /** What the search has to hold on entry: visited ids are on the stack or
    * sorted, sorted workflows have visited ids, all distinct, in order. */
  predicate Good(m: map<string, Workflow>, st: Dfs, stack: seq<string>) {
    && Keyed(m)
    && (forall id :: id in st.visited ==> id in stack || InSorted(st.sorted, id))
    && (forall q :: 0 <= q < |st.sorted| ==> st.sorted[q].workflowId.Some? && st.sorted[q].workflowId.value in st.visited)
    && IdsDistinct(st.sorted)
    && DepsBefore(st.sorted)
  }

  /** What a step of the search promises when it succeeds: the list only
    * grows at the end, by workflows not visited before, each visited now. */
  predicate Grows(m: map<string, Workflow>, before: Dfs, after: Dfs) {
    && |before.sorted| <= |after.sorted|
    && after.sorted[..|before.sorted|] == before.sorted
    && after.visited == before.visited + IdsFrom(after.sorted, |before.sorted|)
    && (forall q :: |before.sorted| <= q < |after.sorted| ==>
          after.sorted[q].workflowId.Some? && after.sorted[q].workflowId.value !in before.visited)
    && IdsDistinct(after.sorted)
    && DepsBefore(after.sorted)
  }

  lemma SubsetCard<T>(a: set<T>, b: set<T>)
    requires a <= b
    ensures |a| <= |b|
    decreases |a|
  {
    if a != {} {
      var x :| x in a;
      SubsetCard(a - {x}, b - {x});
    }
  }

  /** What a visit promises: the list grows, ending with the visited workflow,
    * the others it appends taken from the map. */
  predicate Visited(m: map<string, Workflow>, st: Dfs, after: Dfs, wf: Workflow) {
    && Grows(m, st, after) && |st.sorted| < |after.sorted|
    && after.sorted[|after.sorted| - 1] == wf
    && forall q :: |st.sorted| <= q < |after.sorted| - 1 ==> after.sorted[q] in m.Values
  }

  /** What a search of the dependencies from the i-th promises: the list
    * grows by workflows of the map, and each of these dependencies is sorted. */
  predicate Searched(m: map<string, Workflow>, st: Dfs, after: Dfs, deps: seq<string>, i: nat) {
    && Grows(m, st, after)
    && (forall q :: |st.sorted| <= q < |after.sorted| ==> after.sorted[q] in m.Values)
    && forall j :: i <= j < |deps| ==> InSorted(after.sorted, deps[j])
  }

  // ----- the search -------------------------------------------------------------------

  /** sortTopological: mark visited, push, search the dependencies, pop,
    * append.  A workflow without an id fails at the push. */
  function Visit(m: map<string, Workflow>, st: Dfs, stack: seq<string>, wf: Workflow): (r: Result<Dfs>)
    requires Keyed(m)
    requires wf.workflowId.Some? ==> wf.workflowId.value in m && wf.workflowId.value !in st.visited
    ensures r.Ok? ==> st.visited <= r.value.visited
    decreases |m.Keys - st.visited|, 1, 0
  {
    if wf.workflowId.None? then Err(NullReference("workflowId"))
    else
      var id := wf.workflowId.value;
      var pushed := Dfs(st.visited + {id}, st.sorted);
      assert m.Keys - pushed.visited == (m.Keys - st.visited) - {id};
      var searched := VisitDeps(m, pushed, [id] + stack, Deps(wf), 0);
      if searched.Err? then searched
      else Ok(Dfs(searched.value.visited, searched.value.sorted + [wf]))
  }

  /** The for loop over the dependencies of sortTopological, from the i-th:
    * one on the stack is a cycle, a visited one is skipped, a missing one
    * fails as the null workflow the map returns, any other is visited. */
  function VisitDeps(m: map<string, Workflow>, st: Dfs, stack: seq<string>, deps: seq<string>, i: nat): (r: Result<Dfs>)
    requires Keyed(m) && i <= |deps|
    ensures r.Ok? ==> st.visited <= r.value.visited
    decreases |m.Keys - st.visited|, 2, |deps| - i
  {
    if i == |deps| then Ok(st)
    else
      var d := deps[i];
      if d in stack then Err(Cyclic)
      else if d in st.visited then VisitDeps(m, st, stack, deps, i + 1)
      else if d !in m then Err(NullReference("workflow"))
      else
        var visited := Visit(m, st, stack, m[d]);
        if visited.Err? then visited
        else
          SubsetCard(m.Keys - visited.value.visited, m.Keys - st.visited);
          VisitDeps(m, visited.value, stack, deps, i + 1)
  }

  /** A visit from a good state appends the workflow after what it needs. */
  lemma {:induction false} VisitKeeps(m: map<string, Workflow>, st: Dfs, stack: seq<string>, wf: Workflow)
    requires Good(m, st, stack)
    requires wf.workflowId.Some? ==> wf.workflowId.value in m && wf.workflowId.value !in st.visited
    ensures Visit(m, st, stack, wf).Ok? ==> Visited(m, st, Visit(m, st, stack, wf).value, wf)
    decreases |m.Keys - st.visited|, 1, 0
  {
    if wf.workflowId.Some? {
      var id := wf.workflowId.value;
      var pushed := Dfs(st.visited + {id}, st.sorted);
      var stacked := [id] + stack;
      assert m.Keys - pushed.visited == (m.Keys - st.visited) - {id};
      PushGood(m, st, stack, id);
      VisitStep(m, st, stack, wf);
      VisitDepsKeeps(m, pushed, stacked, Deps(wf), 0);
      var searched := VisitDeps(m, pushed, stacked, Deps(wf), 0);
      if searched.Ok? {
        AppendKeeps(m, st, pushed, searched.value, wf);
      }
    }
  }

  /** Marking an id visited and pushing it keeps the state good. */
  lemma PushGood(m: map<string, Workflow>, st: Dfs, stack: seq<string>, id: string)
    requires Good(m, st, stack)
    ensures Good(m, Dfs(st.visited + {id}, st.sorted), [id] + stack)
  {
  }

  /** A search of the dependencies from a good state sorts each of them. */
  lemma {:induction false} VisitDepsKeeps(m: map<string, Workflow>, st: Dfs, stack: seq<string>, deps: seq<string>, i: nat)
    requires Good(m, st, stack) && i <= |deps|
    ensures VisitDeps(m, st, stack, deps, i).Ok? ==> Searched(m, st, VisitDeps(m, st, stack, deps, i).value, deps, i)
    decreases |m.Keys - st.visited|, 2, |deps| - i
  {
    if i == |deps| {
      GrowsRefl(m, st, stack);
    } else {
      var d := deps[i];
      if d !in stack {
        if d in st.visited {
          VisitDepsKeeps(m, st, stack, deps, i + 1);
          var rest := VisitDeps(m, st, stack, deps, i + 1);
          if rest.Ok? {
            SkipKeeps(m, st, stack, rest.value, deps, i);
          }
        } else if d in m {
          VisitKeeps(m, st, stack, m[d]);
          var visited := Visit(m, st, stack, m[d]);
          if visited.Ok? {
            SubsetCard(m.Keys - visited.value.visited, m.Keys - st.visited);
            StillGood(m, st, visited.value, stack);
            VisitDepsKeeps(m, visited.value, stack, deps, i + 1);
            var rest := VisitDeps(m, visited.value, stack, deps, i + 1);
            if rest.Ok? {
              DescendKeeps(m, st, visited.value, rest.value, deps, i);
            }
          }
        }
      }
    }
  }

  lemma GrowsRefl(m: map<string, Workflow>, st: Dfs, stack: seq<string>)
    requires Good(m, st, stack)
    ensures Grows(m, st, st)
  {
    assert IdsFrom(st.sorted, |st.sorted|) == {};
  }

  /** A dependency already visited and off the stack is already sorted. */
  lemma SkipKeeps(m: map<string, Workflow>, st: Dfs, stack: seq<string>, rest: Dfs, deps: seq<string>, i: nat)
    requires Good(m, st, stack) && i < |deps| && deps[i] in st.visited && deps[i] !in stack
    requires Searched(m, st, rest, deps, i + 1)
    ensures Searched(m, st, rest, deps, i)
  {
    var q :| 0 <= q < |st.sorted| && st.sorted[q].workflowId == Some(deps[i]);
    assert rest.sorted[q] == st.sorted[q];
  }

  /** A dependency visited now is sorted, as the last workflow that visit appended. */
  lemma DescendKeeps(m: map<string, Workflow>, st: Dfs, visited: Dfs, rest: Dfs, deps: seq<string>, i: nat)
    requires Keyed(m) && i < |deps| && deps[i] in m
    requires Visited(m, st, visited, m[deps[i]])
    requires Searched(m, visited, rest, deps, i + 1)
    ensures Searched(m, st, rest, deps, i)
  {
    GrowsTrans(m, st, visited, rest);
    var q := |visited.sorted| - 1;
    assert rest.sorted[q] == visited.sorted[q];
    forall p | |st.sorted| <= p < |rest.sorted| ensures rest.sorted[p] in m.Values {
      if p < q {
        assert rest.sorted[p] == visited.sorted[p];
      }
    }
  }

  /** A successful step leaves the search in a good state again. */
  lemma StillGood(m: map<string, Workflow>, before: Dfs, after: Dfs, stack: seq<string>)
    requires Good(m, before, stack) && Grows(m, before, after)
    ensures Good(m, after, stack)
  {
    forall id | id in after.visited
      ensures id in stack || InSorted(after.sorted, id)
    {
      if id in before.visited && id !in stack {
        var q :| 0 <= q < |before.sorted| && before.sorted[q].workflowId == Some(id);
        assert after.sorted[q] == before.sorted[q];
      }
    }
  }

  lemma GrowsTrans(m: map<string, Workflow>, a: Dfs, b: Dfs, c: Dfs)
    requires Grows(m, a, b) && Grows(m, b, c)
    ensures Grows(m, a, c)
  {
    assert c.sorted[..|a.sorted|] == b.sorted[..|a.sorted|];
    assert IdsFrom(c.sorted, |a.sorted|) == IdsFrom(b.sorted, |a.sorted|) + IdsFrom(c.sorted, |b.sorted|) by {
      forall q | |a.sorted| <= q < |b.sorted| ensures c.sorted[q] == b.sorted[q] {
      }
    }
    forall q | |b.sorted| <= q < |c.sorted|
      ensures c.sorted[q].workflowId.value !in a.visited
    {
    }
  }

  /** Appending the visited workflow after its dependencies keeps the order. */
  lemma AppendKeeps(m: map<string, Workflow>, st: Dfs, pushed: Dfs, searched: Dfs, wf: Workflow)
    requires wf.workflowId.Some? && wf.workflowId.value !in st.visited
    requires pushed == Dfs(st.visited + {wf.workflowId.value}, st.sorted)
    requires (forall q :: 0 <= q < |st.sorted| ==> st.sorted[q].workflowId.Some? && st.sorted[q].workflowId.value in st.visited)
    requires Grows(m, pushed, searched)
    requires forall j :: 0 <= j < |Deps(wf)| ==> InSorted(searched.sorted, Deps(wf)[j])
    ensures Grows(m, st, Dfs(searched.visited, searched.sorted + [wf]))
  {
    var id := wf.workflowId.value;
    var sorted := searched.sorted + [wf];
    var n := |st.sorted|;
    assert sorted[..n] == st.sorted by {
      assert sorted[..|searched.sorted|] == searched.sorted;
    }
    forall p | 0 <= p < |searched.sorted| ensures searched.sorted[p].workflowId != wf.workflowId {
      if p < n {
        assert searched.sorted[p] == st.sorted[p];
      }
    }
    AppendDistinct(searched.sorted, wf);
    AppendDepsBefore(searched.sorted, wf);
    assert IdsFrom(sorted, n) == IdsFrom(searched.sorted, n) + {id} by {
      assert sorted[|searched.sorted|] == wf;
      forall q | n <= q < |searched.sorted| ensures sorted[q] == searched.sorted[q] {
      }
    }
  }

  /** Appending a workflow with a new id keeps the ids distinct. */
  lemma AppendDistinct(prev: seq<Workflow>, wf: Workflow)
    requires IdsDistinct(prev)
    requires forall p :: 0 <= p < |prev| ==> prev[p].workflowId != wf.workflowId
    ensures IdsDistinct(prev + [wf])
  {
    var sorted := prev + [wf];
    forall p, q | 0 <= p < q < |sorted| ensures sorted[p].workflowId != sorted[q].workflowId {
      assert sorted[p] == prev[p];
    }
  }

  /** Appending a workflow whose dependencies are all present keeps the order. */
  lemma AppendDepsBefore(prev: seq<Workflow>, wf: Workflow)
    requires DepsBefore(prev)
    requires forall j :: 0 <= j < |Deps(wf)| ==> InSorted(prev, Deps(wf)[j])
    ensures DepsBefore(prev + [wf])
  {
    var sorted := prev + [wf];
    forall p, d | 0 <= p < |sorted| && d in Deps(sorted[p])
      ensures InSorted(sorted[..p], d)
    {
      if p < |prev| {
        assert sorted[..p] == prev[..p];
        assert sorted[p] == prev[p];
      } else {
        assert sorted[..p] == prev;
        var j :| 0 <= j < |Deps(wf)| && Deps(wf)[j] == d;
      }
    }
  }

  // ----- sortByDependencies ----------------------------------------------------------

  /** The workflow map: each id to the last workflow carrying it.  A workflow
    * without an id is never looked up (dependencies are names), so it is
    * not entered. */
  function WorkflowMapOf(ws: seq<Workflow>): (m: map<string, Workflow>)
    ensures Keyed(m)
    ensures forall k :: k in m ==> m[k] in ws
    ensures forall j :: 0 <= j < |ws| && ws[j].workflowId.Some? ==> ws[j].workflowId.value in m
  {
    if |ws| == 0 then map[]
    else
      var w := ws[|ws| - 1];
      var m := WorkflowMapOf(ws[..|ws| - 1]);
      assert forall j :: 0 <= j < |ws| - 1 ==> ws[..|ws| - 1][j] == ws[j];
      if w.workflowId.Some? then m[w.workflowId.value := w] else m
  }

  /** The later of two workflows with the same id is the one the map keeps. */
  lemma LastWins(ws: seq<Workflow>, j: nat)
    requires j < |ws| && ws[j].workflowId.Some?
    requires forall k :: j < k < |ws| ==> ws[k].workflowId != ws[j].workflowId
    ensures WorkflowMapOf(ws)[ws[j].workflowId.value] == ws[j]
  {
    if j < |ws| - 1 {
      var init := ws[..|ws| - 1];
      assert init[j] == ws[j];
      LastWins(init, j);
    }
  }

  /** The second for loop of sortByDependencies, from the i-th workflow:
    * a workflow whose id was visited is skipped, any other is visited. */
  function SortFrom(ws: seq<Workflow>, m: map<string, Workflow>, st: Dfs, i: nat): (r: Result<Dfs>)
    requires Keyed(m) && i <= |ws|
    requires forall j :: 0 <= j < |ws| && ws[j].workflowId.Some? ==> ws[j].workflowId.value in m
    ensures r.Ok? ==> st.visited <= r.value.visited
    decreases |ws| - i
  {
    if i == |ws| then Ok(st)
    else
      var wf := ws[i];
      if wf.workflowId.Some? && wf.workflowId.value in st.visited then SortFrom(ws, m, st, i + 1)
      else
        var visited := Visit(m, st, [], wf);
        if visited.Err? then visited
        else SortFrom(ws, m, visited.value, i + 1)
  }

  /** The top-level loop from a good state takes every remaining workflow's id. */
  lemma {:induction false} SortFromKeeps(ws: seq<Workflow>, m: map<string, Workflow>, st: Dfs, i: nat)
    requires Good(m, st, []) && i <= |ws|
    requires forall j :: 0 <= j < |ws| && ws[j].workflowId.Some? ==> ws[j].workflowId.value in m
    ensures var r := SortFrom(ws, m, st, i);
      r.Ok? ==> (Grows(m, st, r.value)
        && (forall q :: |st.sorted| <= q < |r.value.sorted| ==> r.value.sorted[q] in m.Values || r.value.sorted[q] in ws)
        && forall j :: i <= j < |ws| ==> ws[j].workflowId.Some? && InSorted(r.value.sorted, ws[j].workflowId.value))
    decreases |ws| - i
  {
    if i == |ws| {
      GrowsRefl(m, st, []);
    } else {
      var wf := ws[i];
      if wf.workflowId.Some? && wf.workflowId.value in st.visited {
        SortFromKeeps(ws, m, st, i + 1);
        var rest := SortFrom(ws, m, st, i + 1);
        if rest.Ok? {
          TopSkipKeeps(ws, m, st, rest.value, i);
        }
      } else {
        VisitKeeps(m, st, [], wf);
        var visited := Visit(m, st, [], wf);
        if visited.Ok? {
          StillGood(m, st, visited.value, []);
          SortFromKeeps(ws, m, visited.value, i + 1);
          var rest := SortFrom(ws, m, visited.value, i + 1);
          if rest.Ok? {
            TopVisitKeeps(ws, m, st, visited.value, rest.value, i);
          }
        }
      }
    }
  }

  lemma TopSkipKeeps(ws: seq<Workflow>, m: map<string, Workflow>, st: Dfs, rest: Dfs, i: nat)
    requires Good(m, st, []) && i < |ws| && ws[i].workflowId.Some? && ws[i].workflowId.value in st.visited
    requires Grows(m, st, rest)
    ensures InSorted(rest.sorted, ws[i].workflowId.value)
  {
    var q :| 0 <= q < |st.sorted| && st.sorted[q].workflowId == ws[i].workflowId;
    assert rest.sorted[q] == st.sorted[q];
  }

  lemma TopVisitKeeps(ws: seq<Workflow>, m: map<string, Workflow>, st: Dfs, visited: Dfs, rest: Dfs, i: nat)
    requires i < |ws| && Visited(m, st, visited, ws[i]) && Grows(m, visited, rest)
    requires forall q :: |visited.sorted| <= q < |rest.sorted| ==> rest.sorted[q] in m.Values || rest.sorted[q] in ws
    ensures Grows(m, st, rest)
    ensures forall q :: |st.sorted| <= q < |rest.sorted| ==> rest.sorted[q] in m.Values || rest.sorted[q] in ws
    ensures ws[i].workflowId.Some? && InSorted(rest.sorted, ws[i].workflowId.value)
  {
    GrowsTrans(m, st, visited, rest);
    var q := |visited.sorted| - 1;
    assert rest.sorted[q] == visited.sorted[q];
    forall p | |st.sorted| <= p < |visited.sorted| ensures rest.sorted[p] == visited.sorted[p] {
    }
  }

  /** Every workflow has an id and no id occurs twice. */
  predicate UniqueIds(ws: seq<Workflow>) {
    (forall j :: 0 <= j < |ws| ==> ws[j].workflowId.Some?) && IdsDistinct(ws)
  }

  /** sortByDependencies on the list of workflows: on success every
    * dependency comes before its dependent, no id occurs twice, every
    * workflow taken is one of the list and every id of the list is taken. */
  function Sort(ws: seq<Workflow>): (r: Result<seq<Workflow>>)
    ensures r.Ok? ==> (DepsBefore(r.value) && IdsDistinct(r.value)
      && (forall q :: 0 <= q < |r.value| ==> r.value[q] in ws)
      && forall j :: 0 <= j < |ws| ==> ws[j].workflowId.Some? && InSorted(r.value, ws[j].workflowId.value))
  {
    var m := WorkflowMapOf(ws);
    var start := Dfs({}, []);
    SortFromKeeps(ws, m, start, 0);
    var r := SortFrom(ws, m, start, 0);
    if r.Err? then Err(r.error) else Ok(r.value.sorted)
  }

  /** The document with its workflows replaced by the sorted list. */
  function SortDocument(doc: Document): (r: Result<Document>)
    ensures r.Ok? <==> Sort(doc.workflows).Ok?
    ensures r.Ok? ==> r.value == doc.(workflows := Sort(doc.workflows).value)
  {
    var sorted := Sort(doc.workflows);
    if sorted.Err? then Err(sorted.error) else Ok(doc.(workflows := sorted.value))
  }

  // ----- properties ------------------------------------------------------------------

  /** In a list without repeated ids two positions with the same id are one. */
  lemma DistinctAt(s: seq<Workflow>, a: nat, b: nat)
    requires IdsDistinct(s) && a < |s| && b < |s| && s[a].workflowId == s[b].workflowId
    ensures a == b
  {
  }

  /** A list without repeated ids holds each of its workflows once. */
  lemma {:induction false} OnceEach(s: seq<Workflow>, x: Workflow)
    requires IdsDistinct(s)
    ensures multiset(s)[x] == if x in s then 1 else 0
    decreases |s|
  {
    if |s| > 0 {
      var init := s[..|s| - 1];
      assert s == init + [s[|s| - 1]];
      assert IdsDistinct(init) by {
        forall p, q | 0 <= p < q < |init| ensures init[p].workflowId != init[q].workflowId {
          assert init[p] == s[p] && init[q] == s[q];
        }
      }
      OnceEach(init, x);
      var last := |s| - 1;
      forall p | 0 <= p < |init| ensures init[p].workflowId != s[last].workflowId {
        assert init[p] == s[p];
      }
    }
  }

  /** Two lists without repeated ids holding the same workflows are permutations. */
  lemma SameElements(a: seq<Workflow>, b: seq<Workflow>)
    requires IdsDistinct(a) && IdsDistinct(b)
    requires forall x :: x in a <==> x in b
    ensures multiset(a) == multiset(b)
  {
    forall x ensures multiset(a)[x] == multiset(b)[x] {
      OnceEach(a, x);
      OnceEach(b, x);
    }
  }

  /** With unique ids the sorted list is a permutation of the workflows. */
  lemma SortPermutes(ws: seq<Workflow>)
    requires UniqueIds(ws) && Sort(ws).Ok?
    ensures multiset(Sort(ws).value) == multiset(ws)
  {
    var r := Sort(ws).value;
    forall x ensures x in r <==> x in ws {
      if x in ws {
        var j :| 0 <= j < |ws| && ws[j] == x;
        var q :| 0 <= q < |r| && r[q].workflowId == ws[j].workflowId;
        var j' :| 0 <= j' < |ws| && ws[j'] == r[q];
        assert j' == j;
      }
    }
    SameElements(r, ws);
  }

  /** The position of a workflow in a list. */
  function IndexOf(r: seq<Workflow>, w: Workflow): (p: nat)
    requires w in r
    ensures p < |r| && r[p] == w
  {
    if r[0] == w then 0 else 1 + IndexOf(r[1..], w)
  }

  /** A dependency chain: the workflow c[k-1] depends on c[k]. */
  predicate Chain(ws: seq<Workflow>, c: seq<nat>) {
    && (forall k :: 0 <= k < |c| ==> c[k] < |ws|)
    && forall k :: 1 <= k < |c| ==> Link(ws, c[k - 1], c[k])
  }

  /** The a-th workflow depends on the b-th. */
  predicate Link(ws: seq<Workflow>, a: nat, b: nat) {
    a < |ws| && b < |ws| && ws[b].workflowId.Some? && ws[b].workflowId.value in Deps(ws[a])
  }

  /** With unique ids every workflow of the list is sorted. */
  lemma Taken(ws: seq<Workflow>, j: nat)
    requires UniqueIds(ws) && Sort(ws).Ok? && j < |ws|
    ensures ws[j] in Sort(ws).value
  {
    SortPermutes(ws);
    assert ws[j] in multiset(ws);
  }

  /** The workflow sorted with a given id, when ids are unique, is the one of the list. */
  lemma NamedIs(ws: seq<Workflow>, r: seq<Workflow>, q: nat, k: nat)
    requires UniqueIds(ws) && Sort(ws) == Ok(r) && q < |r| && k < |ws|
    requires r[q].workflowId == ws[k].workflowId
    ensures r[q] == ws[k] && IndexOf(r, ws[k]) == q
  {
    var k' :| 0 <= k' < |ws| && ws[k'] == r[q];
    DistinctAt(ws, k', k);
    var p := IndexOf(r, ws[k]);
    DistinctAt(r, p, q);
  }

  /** With unique ids a workflow is sorted after each workflow it depends on. */
  lemma DependencyEarlier(ws: seq<Workflow>, j: nat, k: nat)
    requires UniqueIds(ws) && Sort(ws).Ok? && Link(ws, j, k)
    ensures ws[j] in Sort(ws).value && ws[k] in Sort(ws).value
    ensures IndexOf(Sort(ws).value, ws[k]) < IndexOf(Sort(ws).value, ws[j])
  {
    var r := Sort(ws).value;
    Taken(ws, j);
    Taken(ws, k);
    var p := IndexOf(r, ws[j]);
    var d := ws[k].workflowId.value;
    assert d in Deps(r[p]);
    assert InSorted(r[..p], d);
    var q :| 0 <= q < p && r[..p][q].workflowId == Some(d);
    assert r[q].workflowId == ws[k].workflowId;
    NamedIs(ws, r, q, k);
  }

  /** Along a dependency chain the sorted positions fall by at least one per link. */
  lemma {:induction false} ChainRanks(ws: seq<Workflow>, c: seq<nat>)
    requires UniqueIds(ws) && Sort(ws).Ok? && Chain(ws, c) && |c| >= 1
    ensures ws[c[0]] in Sort(ws).value && ws[c[|c| - 1]] in Sort(ws).value
    ensures IndexOf(Sort(ws).value, ws[c[|c| - 1]]) + |c| - 1 <= IndexOf(Sort(ws).value, ws[c[0]])
    decreases |c|
  {
    Taken(ws, c[0]);
    if |c| > 1 {
      var init := c[..|c| - 1];
      assert Chain(ws, init) by {
        forall k | 1 <= k < |init| ensures Link(ws, init[k - 1], init[k]) {
          assert init[k - 1] == c[k - 1] && init[k] == c[k];
        }
      }
      ChainRanks(ws, init);
      var last := |c| - 1;
      assert Link(ws, c[last - 1], c[last]);
      DependencyEarlier(ws, c[last - 1], c[last]);
    }
  }

  /** A dependency cycle (a workflow depending on itself, directly or through
    * others) makes the sort fail; when every dependency names a workflow, it
    * fails with "Unexpected cyclic dependency". */
  lemma CycleFails(ws: seq<Workflow>, c: seq<nat>)
    requires UniqueIds(ws) && Chain(ws, c) && |c| >= 2 && c[0] == c[|c| - 1]
    ensures Sort(ws).Err?
    ensures DependenciesResolve(ws) ==> Sort(ws) == Err(Cyclic)
  {
    if Sort(ws).Ok? {
      ChainRanks(ws, c);
      assert false;
    }
    if DependenciesResolve(ws) {
      SortFailsOnCycle(ws);
    }
  }

  /** With unique ids every dependency of a sorted list names one of the workflows. */
  lemma DependenciesNamed(ws: seq<Workflow>, j: nat, d: string)
    requires UniqueIds(ws) && Sort(ws).Ok? && j < |ws| && d in Deps(ws[j])
    ensures exists k :: 0 <= k < |ws| && ws[k].workflowId == Some(d)
  {
    var r := Sort(ws).value;
    Taken(ws, j);
    var p := IndexOf(r, ws[j]);
    assert InSorted(r[..p], d);
    var q :| 0 <= q < p && r[..p][q].workflowId == Some(d);
    assert r[q] in ws;
  }

  /** A dependency that names no workflow makes the sort fail. */
  lemma MissingDependencyFails(ws: seq<Workflow>, j: nat, d: string)
    requires UniqueIds(ws) && j < |ws| && d in Deps(ws[j])
    requires forall k :: 0 <= k < |ws| ==> ws[k].workflowId != Some(d)
    ensures Sort(ws).Err?
  {
    if Sort(ws).Ok? {
      DependenciesNamed(ws, j, d);
      assert false;
    }
  }

  // ----- why the search fails ---------------------------------------------------------

  /** Every dependency of every workflow names a workflow of the list. */
  predicate DependenciesResolve(ws: seq<Workflow>) {
    forall j, d :: 0 <= j < |ws| && d in Deps(ws[j]) ==> exists k :: 0 <= k < |ws| && ws[k].workflowId == Some(d)
  }

  /** No dependency chain comes back to the workflow it started from. */
  ghost predicate Acyclic(ws: seq<Workflow>) {
    forall c :: Chain(ws, c) && |c| >= 2 ==> c[0] != c[|c| - 1]
  }

  /** Every dependency of a workflow of the map is a key of the map. */
  predicate Closed(m: map<string, Workflow>) {
    forall k, d :: k in m && d in Deps(m[k]) ==> d in m
  }

  /** A recursion stack read from the top: every id is a key, and each
    * workflow depends on the one pushed after it. */
  predicate StackChain(m: map<string, Workflow>, s: seq<string>) {
    && (forall k :: 0 <= k < |s| ==> s[k] in m)
    && forall k :: 1 <= k < |s| ==> s[k - 1] in Deps(m[s[k]])
  }

  /** Some chain of ids through the map comes back to where it started. */
  ghost predicate MapCycle(m: map<string, Workflow>) {
    exists s :: StackChain(m, s) && |s| >= 2 && s[0] == s[|s| - 1]
  }

  /** Where in the list the map's workflow for an id sits. */
  ghost function Position(ws: seq<Workflow>, m: map<string, Workflow>, id: string): (j: nat)
    requires id in m && m[id] in ws
    ensures j < |ws| && ws[j] == m[id]
  {
    var j :| 0 <= j < |ws| && ws[j] == m[id]; j
  }

  /** The positions of the map's workflows for the ids of s, last id first. */
  lemma Positions(ws: seq<Workflow>, m: map<string, Workflow>, s: seq<string>) returns (c: seq<nat>)
    requires forall k :: k in m ==> m[k] in ws
    requires forall k :: 0 <= k < |s| ==> s[k] in m
    ensures |c| == |s|
    ensures forall k :: 0 <= k < |s| ==> c[k] == Position(ws, m, s[|s| - 1 - k])
  {
    c := seq(|s|, k requires 0 <= k < |s| => Position(ws, m, s[|s| - 1 - k]));
  }

  /** A cycle through a map of the list's workflows, each under its own id,
    * is a dependency cycle of the list. */
  lemma MapCycleInList(ws: seq<Workflow>, m: map<string, Workflow>, s: seq<string>)
    requires Keyed(m) && forall k :: k in m ==> m[k] in ws
    requires StackChain(m, s) && |s| >= 2 && s[0] == s[|s| - 1]
    ensures !Acyclic(ws)
  {
    var n := |s|;
    var c := Positions(ws, m, s);
    forall k | 0 <= k < n ensures c[k] < |ws| {
      assert c[k] == Position(ws, m, s[n - 1 - k]);
    }
    forall k | 1 <= k < n ensures Link(ws, c[k - 1], c[k]) {
      var a, b := s[n - k], s[n - k - 1];
      assert c[k - 1] == Position(ws, m, a) && c[k] == Position(ws, m, b);
      PositionLink(ws, m, a, b);
    }
    assert c[0] == c[n - 1];
    assert Chain(ws, c) && |c| >= 2 && c[0] == c[|c| - 1];
  }

  /** A dependency between two workflows of the map is a link between their positions. */
  lemma PositionLink(ws: seq<Workflow>, m: map<string, Workflow>, a: string, b: string)
    requires Keyed(m) && a in m && b in m && m[a] in ws && m[b] in ws && b in Deps(m[a])
    ensures Link(ws, Position(ws, m, a), Position(ws, m, b))
  {
  }

  /** A dependency found on the stack closes a cycle: from it back up the
    * stack to the workflow whose dependencies are searched, and on to it. */
  lemma StackCycle(m: map<string, Workflow>, stack: seq<string>, p: nat)
    requires StackChain(m, stack) && p < |stack| && stack[p] in Deps(m[stack[0]])
    ensures MapCycle(m)
  {
    var s := [stack[p]] + stack[..p + 1];
    forall k | 1 <= k < |s| ensures s[k - 1] in Deps(m[s[k]]) {
      if k >= 2 {
        assert s[k - 1] == stack[k - 2] && s[k] == stack[k - 1];
      }
    }
    assert StackChain(m, s);
  }

  /** Over a closed map a visit fails only on "Unexpected cyclic
    * dependency", and only when the map holds a cycle. */
  lemma {:induction false} VisitFailsOnCycle(m: map<string, Workflow>, st: Dfs, stack: seq<string>, wf: Workflow)
    requires Keyed(m) && Closed(m) && StackChain(m, stack)
    requires wf.workflowId.Some? && wf.workflowId.value in m && wf.workflowId.value !in st.visited
    requires m[wf.workflowId.value] == wf
    requires |stack| > 0 ==> wf.workflowId.value in Deps(m[stack[0]])
    ensures var r := Visit(m, st, stack, wf);
      r.Err? ==> r.error == Cyclic && MapCycle(m)
    decreases |m.Keys - st.visited|, 1, 0
  {
    var id := wf.workflowId.value;
    var pushed := Dfs(st.visited + {id}, st.sorted);
    assert m.Keys - pushed.visited == (m.Keys - st.visited) - {id};
    var s := [id] + stack;
    forall k | 1 <= k < |s| ensures s[k] in m && s[k - 1] in Deps(m[s[k]]) {
      assert s[k] == stack[k - 1];
      if k >= 2 {
        assert s[k - 1] == stack[k - 2];
      }
    }
    assert StackChain(m, s);
    VisitDepsFailsOnCycle(m, pushed, s, Deps(wf), 0);
  }

  /** Over a closed map the dependency loop fails only on "Unexpected cyclic
    * dependency", and only when the map holds a cycle. */
  lemma {:induction false} VisitDepsFailsOnCycle(m: map<string, Workflow>, st: Dfs, stack: seq<string>, deps: seq<string>, i: nat)
    requires Keyed(m) && Closed(m) && StackChain(m, stack) && |stack| > 0
    requires deps == Deps(m[stack[0]]) && i <= |deps|
    ensures var r := VisitDeps(m, st, stack, deps, i);
      r.Err? ==> r.error == Cyclic && MapCycle(m)
    decreases |m.Keys - st.visited|, 2, |deps| - i
  {
    if i < |deps| {
      var d := deps[i];
      if d in stack {
        var p :| 0 <= p < |stack| && stack[p] == d;
        StackCycle(m, stack, p);
      } else if d in st.visited {
        VisitDepsFailsOnCycle(m, st, stack, deps, i + 1);
      } else {
        assert d in m;
        VisitFailsOnCycle(m, st, stack, m[d]);
        var visited := Visit(m, st, stack, m[d]);
        if visited.Ok? {
          SubsetCard(m.Keys - visited.value.visited, m.Keys - st.visited);
          VisitDepsFailsOnCycle(m, visited.value, stack, deps, i + 1);
        }
      }
    }
  }

  /** Over a closed map holding each workflow of the list under its id, the
    * top-level loop fails only on a cycle. */
  lemma {:induction false} SortFromFailsOnCycle(ws: seq<Workflow>, m: map<string, Workflow>, st: Dfs, i: nat)
    requires Keyed(m) && Closed(m) && i <= |ws|
    requires forall j :: 0 <= j < |ws| ==> ws[j].workflowId.Some? && ws[j].workflowId.value in m && m[ws[j].workflowId.value] == ws[j]
    ensures var r := SortFrom(ws, m, st, i);
      r.Err? ==> r.error == Cyclic && MapCycle(m)
    decreases |ws| - i
  {
    if i < |ws| {
      var wf := ws[i];
      if wf.workflowId.value in st.visited {
        SortFromFailsOnCycle(ws, m, st, i + 1);
      } else {
        VisitFailsOnCycle(m, st, [], wf);
        var visited := Visit(m, st, [], wf);
        if visited.Ok? {
          SortFromFailsOnCycle(ws, m, visited.value, i + 1);
        }
      }
    }
  }

  /** With unique ids and every dependency naming a workflow, the sort fails
    * only with "Unexpected cyclic dependency", and only on a dependency cycle. */
  lemma SortFailsOnCycle(ws: seq<Workflow>)
    requires UniqueIds(ws) && DependenciesResolve(ws)
    ensures Sort(ws).Err? ==> Sort(ws).error == Cyclic && !Acyclic(ws)
  {
    var m := WorkflowMapOf(ws);
    forall k, d | k in m && d in Deps(m[k]) ensures d in m {
      var j :| 0 <= j < |ws| && ws[j] == m[k];
      var q :| 0 <= q < |ws| && ws[q].workflowId == Some(d);
    }
    forall j | 0 <= j < |ws| ensures m[ws[j].workflowId.value] == ws[j] {
      LastWins(ws, j);
    }
    SortFromFailsOnCycle(ws, m, Dfs({}, []), 0);
    if Sort(ws).Err? {
      var s :| StackChain(m, s) && |s| >= 2 && s[0] == s[|s| - 1];
      MapCycleInList(ws, m, s);
    }
  }

  /** With unique ids, every dependency naming a workflow and no dependency
    * cycle, the sort succeeds with a permutation of the workflows. */
  lemma AcyclicSorts(ws: seq<Workflow>)
    requires UniqueIds(ws) && DependenciesResolve(ws) && Acyclic(ws)
    ensures Sort(ws).Ok?
    ensures multiset(Sort(ws).value) == multiset(ws)
  {
    SortFailsOnCycle(ws);
    SortPermutes(ws);
  }

  /** With unique ids the sort succeeds exactly when every dependency names a
    * workflow and no dependency chain comes back to where it started. */
  lemma SortSucceedsIff(ws: seq<Workflow>)
    requires UniqueIds(ws)
    ensures Sort(ws).Ok? <==> DependenciesResolve(ws) && Acyclic(ws)
  {
    if Sort(ws).Ok? {
      forall j, d | 0 <= j < |ws| && d in Deps(ws[j]) ensures exists k :: 0 <= k < |ws| && ws[k].workflowId == Some(d) {
        DependenciesNamed(ws, j, d);
      }
      forall c | Chain(ws, c) && |c| >= 2 ensures c[0] != c[|c| - 1] {
        if c[0] == c[|c| - 1] {
          CycleFails(ws, c);
          assert false;
        }
      }
    } else if DependenciesResolve(ws) && Acyclic(ws) {
      AcyclicSorts(ws);
      assert false;
    }
  }

  /** Visiting a workflow whose first dependency is itself raises the cyclic
    * dependency error. */
  lemma SelfDependencyCyclic(m: map<string, Workflow>, st: Dfs, stack: seq<string>, wf: Workflow)
    requires Good(m, st, stack)
    requires wf.workflowId.Some? && wf.workflowId.value in m && wf.workflowId.value !in st.visited
    requires |Deps(wf)| > 0 && Deps(wf)[0] == wf.workflowId.value
    ensures Visit(m, st, stack, wf) == Err(Cyclic)
  {
  }

  /** A workflow without dependencies is visited by appending it. */
  lemma VisitLeaf(m: map<string, Workflow>, st: Dfs, stack: seq<string>, wf: Workflow)
    requires Good(m, st, stack) && Deps(wf) == []
    requires wf.workflowId.Some? && wf.workflowId.value in m && wf.workflowId.value !in st.visited
    ensures Visit(m, st, stack, wf) == Ok(Dfs(st.visited + {wf.workflowId.value}, st.sorted + [wf]))
  {
    var id := wf.workflowId.value;
    var pushed := Dfs(st.visited + {id}, st.sorted);
    assert VisitDeps(m, pushed, [id] + stack, [], 0) == Ok(pushed);
  }

  /** The first i workflows of a list with unique ids and no dependencies
    * form a good state of the search. */
  lemma PrefixGood(ws: seq<Workflow>, i: nat)
    requires UniqueIds(ws) && i <= |ws|
    requires forall j :: 0 <= j < |ws| ==> Deps(ws[j]) == []
    ensures Good(WorkflowMapOf(ws), Dfs(IdsFrom(ws[..i], 0), ws[..i]), [])
  {
    var pre := ws[..i];
    var ids := IdsFrom(pre, 0);
    forall id | id in ids ensures InSorted(pre, id) {
      var q :| 0 <= q < i && pre[q].workflowId.Some? && pre[q].workflowId.value == id;
    }
    forall q | 0 <= q < |pre| ensures pre[q].workflowId.Some? && pre[q].workflowId.value in ids {
      assert pre[q] == ws[q];
    }
    assert IdsDistinct(pre) by {
      forall p, q | 0 <= p < q < |pre| ensures pre[p].workflowId != pre[q].workflowId {
        assert pre[p] == ws[p] && pre[q] == ws[q];
      }
    }
    assert DepsBefore(pre) by {
      forall p | 0 <= p < |pre| ensures Deps(pre[p]) == [] {
        assert pre[p] == ws[p];
      }
    }
  }

  /** Taking one more workflow of such a list: its id is new and is added. */
  lemma PrefixNext(ws: seq<Workflow>, i: nat)
    requires UniqueIds(ws) && i < |ws|
    ensures ws[i].workflowId.value !in IdsFrom(ws[..i], 0)
    ensures IdsFrom(ws[..i + 1], 0) == IdsFrom(ws[..i], 0) + {ws[i].workflowId.value}
    ensures ws[..i + 1] == ws[..i] + [ws[i]]
  {
    var pre := ws[..i];
    var id := ws[i].workflowId.value;
    forall q | 0 <= q < i ensures pre[q].workflowId != ws[i].workflowId {
      assert pre[q] == ws[q];
    }
    var next := ws[..i + 1];
    assert next == pre + [ws[i]];
    forall q | 0 <= q < i ensures next[q] == pre[q] {
    }
    assert next[i] == ws[i];
  }

  /** Without any dependsOn the order is the document order. */
  lemma {:induction false} NoDependenciesFrom(ws: seq<Workflow>, i: nat)
    requires UniqueIds(ws) && i <= |ws|
    requires forall j :: 0 <= j < |ws| ==> Deps(ws[j]) == []
    ensures Good(WorkflowMapOf(ws), Dfs(IdsFrom(ws[..i], 0), ws[..i]), [])
    ensures SortFrom(ws, WorkflowMapOf(ws), Dfs(IdsFrom(ws[..i], 0), ws[..i]), i)
      == Ok(Dfs(IdsFrom(ws, 0), ws))
    decreases |ws| - i
  {
    PrefixGood(ws, i);
    if i == |ws| {
      assert ws[..i] == ws;
    } else {
      var m := WorkflowMapOf(ws);
      var st := Dfs(IdsFrom(ws[..i], 0), ws[..i]);
      var wf := ws[i];
      PrefixNext(ws, i);
      VisitLeaf(m, st, [], wf);
      NoDependenciesFrom(ws, i + 1);
      var next := Dfs(IdsFrom(ws[..i + 1], 0), ws[..i + 1]);
      assert SortFrom(ws, m, st, i) == SortFrom(ws, m, next, i + 1);
    }
  }

  lemma NoDependenciesKeepOrder(ws: seq<Workflow>)
    requires UniqueIds(ws)
    requires forall j :: 0 <= j < |ws| ==> Deps(ws[j]) == []
    ensures Sort(ws) == Ok(ws)
  {
    NoDependenciesFrom(ws, 0);
    assert ws[..0] == [];
    assert IdsFrom([], 0) == {};
  }

  // ----- the mutable search -----------------------------------------------------------

  /** The visited set, the recursion stack and the result list that
    * sortTopological mutates, with the workflow map it reads. */
  class DependencySorter {
    var visited: set<string>
    var recursionStack: seq<string>
    var sortedWorkflows: seq<Workflow>
    const workflowMap: map<string, Workflow>

    function State(): Dfs
      reads this
    {
      Dfs(visited, sortedWorkflows)
    }

    constructor (workflowMap: map<string, Workflow>)
      ensures this.workflowMap == workflowMap
      ensures visited == {} && recursionStack == [] && sortedWorkflows == []
    {
      this.workflowMap := workflowMap;
      visited := {};
      recursionStack := [];
      sortedWorkflows := [];
    }

    /** sortTopological: agrees with Visit, and pops what it pushed. */
    method SortTopological(wf: Workflow) returns (r: Result<()>)
      requires Keyed(workflowMap)
      requires wf.workflowId.Some? ==> wf.workflowId.value in workflowMap && wf.workflowId.value !in visited
      modifies this
      ensures var spec := Visit(workflowMap, old(State()), old(recursionStack), wf);
        && (r.Ok? <==> spec.Ok?)
        && (r.Err? ==> r.error == spec.error)
        && (r.Ok? ==> State() == spec.value && recursionStack == old(recursionStack))
      decreases |workflowMap.Keys - visited|, 1
    {
      if wf.workflowId.None? {
        return Err(NullReference("workflowId"));
      }
      var id := wf.workflowId.value;
      ghost var stack0 := recursionStack;
      ghost var st0 := State();
      visited := visited + {id};
      recursionStack := [id] + recursionStack;
      assert workflowMap.Keys - visited == (workflowMap.Keys - st0.visited) - {id};
      VisitStep(workflowMap, st0, stack0, wf);
      var searched := SortDependencies(Deps(wf));
      if searched.Err? {
        return searched;
      }
      recursionStack := recursionStack[1..];
      sortedWorkflows := sortedWorkflows + [wf];
      return Ok(());
    }

    /** The for loop of sortTopological over the dependencies: agrees with
      * VisitDeps and leaves the stack as it found it. */
    method SortDependencies(deps: seq<string>) returns (r: Result<()>)
      requires Keyed(workflowMap)
      modifies this
      ensures var spec := VisitDeps(workflowMap, old(State()), old(recursionStack), deps, 0);
        && (r.Ok? <==> spec.Ok?)
        && (r.Err? ==> r.error == spec.error)
        && (r.Ok? ==> State() == spec.value && recursionStack == old(recursionStack))
      decreases |workflowMap.Keys - visited|, 2
    {
      ghost var start := State();
      ghost var stack := recursionStack;
      var i := 0;
      while i < |deps|
        invariant i <= |deps|
        invariant recursionStack == stack
        invariant start.visited <= visited
        invariant VisitDeps(workflowMap, start, stack, deps, 0) == VisitDeps(workflowMap, State(), stack, deps, i)
        decreases |deps| - i
      {
        var dependency := deps[i];
        if dependency in recursionStack {
          return Err(Cyclic);
        }
        if dependency !in visited {
          if dependency !in workflowMap {
            return Err(NullReference("workflow"));
          }
          SubsetCard(workflowMap.Keys - visited, workflowMap.Keys - start.visited);
          DescendStep(workflowMap, State(), recursionStack, deps, i);
          var sub := SortTopological(workflowMap[dependency]);
          if sub.Err? {
            return sub;
          }
        } else {
          SkipStep(workflowMap, State(), recursionStack, deps, i);
        }
        i := i + 1;
      }
      return Ok(());
    }
  }

  /** A visit is the search of the dependencies with the id pushed, then the append. */
  lemma VisitStep(m: map<string, Workflow>, st: Dfs, stack: seq<string>, wf: Workflow)
    requires Keyed(m) && wf.workflowId.Some? && wf.workflowId.value in m && wf.workflowId.value !in st.visited
    ensures var id := wf.workflowId.value;
      var searched := VisitDeps(m, Dfs(st.visited + {id}, st.sorted), [id] + stack, Deps(wf), 0);
      Visit(m, st, stack, wf) == if searched.Err? then searched else Ok(Dfs(searched.value.visited, searched.value.sorted + [wf]))
  {
  }

  /** A dependency visited now: the search fails as the visit did, or goes
    * on from the state the visit left. */
  lemma DescendStep(m: map<string, Workflow>, before: Dfs, stack: seq<string>, deps: seq<string>, i: nat)
    requires Keyed(m) && i < |deps|
    requires deps[i] !in stack && deps[i] !in before.visited && deps[i] in m
    ensures var after := Visit(m, before, stack, m[deps[i]]);
      && (after.Err? ==> VisitDeps(m, before, stack, deps, i) == after)
      && (after.Ok? ==> VisitDeps(m, before, stack, deps, i) == VisitDeps(m, after.value, stack, deps, i + 1))
  {
  }

  /** A dependency already visited: the search goes on with the next one. */
  lemma SkipStep(m: map<string, Workflow>, st: Dfs, stack: seq<string>, deps: seq<string>, i: nat)
    requires Keyed(m) && i < |deps| && deps[i] !in stack && deps[i] in st.visited
    ensures VisitDeps(m, st, stack, deps, i) == VisitDeps(m, st, stack, deps, i + 1)
  {
  }

  /** A workflow not yet visited from the top: the loop fails as its visit
    * did, or goes on from the state the visit left. */
  lemma TopStep(ws: seq<Workflow>, m: map<string, Workflow>, st: Dfs, i: nat)
    requires Keyed(m) && i < |ws|
    requires forall j :: 0 <= j < |ws| && ws[j].workflowId.Some? ==> ws[j].workflowId.value in m
    requires !(ws[i].workflowId.Some? && ws[i].workflowId.value in st.visited)
    ensures var v := Visit(m, st, [], ws[i]);
      && (v.Err? ==> SortFrom(ws, m, st, i) == v)
      && (v.Ok? ==> SortFrom(ws, m, st, i) == SortFrom(ws, m, v.value, i + 1))
  {
  }

  lemma SortUnfold(ws: seq<Workflow>)
    ensures var r := SortFrom(ws, WorkflowMapOf(ws), Dfs({}, []), 0);
      Sort(ws) == if r.Err? then Err(r.error) else Ok(r.value.sorted)
  {
  }

  /** The first loop of sortByDependencies: every workflow put under its id,
    * a later one replacing an earlier one with the same id. */
  method BuildWorkflowMap(ws: seq<Workflow>) returns (workflowMap: map<string, Workflow>)
    ensures workflowMap == WorkflowMapOf(ws)
  {
    workflowMap := map[];
    var j := 0;
    while j < |ws|
      invariant j <= |ws|
      invariant workflowMap == WorkflowMapOf(ws[..j])
    {
      assert ws[..j + 1][..j] == ws[..j];
      if ws[j].workflowId.Some? {
        workflowMap := workflowMap[ws[j].workflowId.value := ws[j]];
      }
      j := j + 1;
    }
    assert ws[..|ws|] == ws;
  }

  /** sortByDependencies: the document with its workflows replaced by the
    * sorted list, or the failure the search raised. */
  method SortByDependencies(doc: Document) returns (r: Result<Document>)
    ensures r == SortDocument(doc)
  {
    var ws := doc.workflows;
    var workflowMap := BuildWorkflowMap(ws);
    var sorter := new DependencySorter(workflowMap);
    var i := 0;
    while i < |ws|
      invariant i <= |ws| && sorter.workflowMap == workflowMap
      invariant sorter.recursionStack == []
      invariant SortFrom(ws, workflowMap, Dfs({}, []), 0) == SortFrom(ws, workflowMap, sorter.State(), i)
    {
      var wf := ws[i];
      if !(wf.workflowId.Some? && wf.workflowId.value in sorter.visited) {
        TopStep(ws, workflowMap, sorter.State(), i);
        var sub := sorter.SortTopological(wf);
        if sub.Err? {
          SortUnfold(ws);
          return Err(sub.error);
        }
      }
      i := i + 1;
    }
    SortUnfold(ws);
    return Ok(doc.(workflows := sorter.sortedWorkflows));
  }
}
