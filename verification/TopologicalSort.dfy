/** Ordering a workflow's steps so that each step's needs come first. */
module TopologicalSort {

  datatype Step<P> = Step(id: string, needs: seq<string>, plan: P)

  datatype Outcome<P> =
    | Ordered(steps: seq<Step<P>>)
    | DuplicateIds
    | CycleAt(id: string)
    | UnknownNeed(id: string)

  // ----- the needs graph -----

  type Graph = map<string, seq<string>>

  ghost predicate Edge(g: Graph, a: string, b: string) { a in g && b in g[a] }

  /** Consecutive nodes are joined by a need. */
  ghost predicate IsPath(g: Graph, p: seq<string>)
  {
    forall i | 0 <= i < |p| - 1 :: Edge(g, p[i], p[i + 1])
  }

  ghost predicate IsCycleThrough(g: Graph, p: seq<string>, x: string)
  {
    |p| >= 2 && p[0] == x && p[|p| - 1] == x && IsPath(g, p)
  }

  ghost predicate OnCycle(g: Graph, x: string) { exists p :: IsCycleThrough(g, p, x) }

  ghost predicate Acyclic(g: Graph) { forall x :: !OnCycle(g, x) }

  ghost predicate NeedsKnown(g: Graph) { forall a, b :: Edge(g, a, b) ==> b in g }

  ghost predicate UniqueIds<P>(steps: seq<Step<P>>)
  {
    forall i, j | 0 <= i < j < |steps| :: steps[i].id != steps[j].id
  }

  /** The steps by id; a repeated id keeps its last step. */
  function Index<P>(steps: seq<Step<P>>): (m: map<string, Step<P>>)
  {
    if steps == [] then map[]
    else Index(steps[..|steps| - 1])[steps[|steps| - 1].id := steps[|steps| - 1]]
  }

  ghost function GraphOf<P>(steps: seq<Step<P>>): (g: Graph)
  {
    map x | x in Index(steps) :: Index(steps)[x].needs
  }

  /** Each node listed once, its needs before it. */
  ghost predicate NeedsFirst(g: Graph, order: seq<string>)
  {
    && (forall i, j | 0 <= i < j < |order| :: order[i] != order[j])
    && (forall i | 0 <= i < |order| :: order[i] in g && forall b | b in g[order[i]] :: b in order[..i])
  }

  ghost predicate TopologicalOrder(g: Graph, order: seq<string>)
  {
    NeedsFirst(g, order) && forall x :: x in g ==> x in order
  }

  /** Along a path inside a needs-first order, positions strictly decrease. */
  lemma {:induction false} PathDescends(g: Graph, order: seq<string>, p: seq<string>, i: nat) returns (j: nat)
    requires NeedsFirst(g, order) && IsPath(g, p) && |p| >= 1
    requires i < |order| && order[i] == p[0]
    ensures j < |order| && order[j] == p[|p| - 1] && (if |p| == 1 then j == i else j < i)
    decreases |p|
  {
    if |p| == 1 {
      return i;
    }
    assert Edge(g, p[0], p[1]);
    var k :| 0 <= k < i && order[k] == p[1];
    assert IsPath(g, p[1..]) by {
      forall m | 0 <= m < |p[1..]| - 1 ensures Edge(g, p[1..][m], p[1..][m + 1]) {
        assert Edge(g, p[m + 1], p[m + 2]);
      }
    }
    j := PathDescends(g, order, p[1..], k);
  }

  /** A topological order rules out cycles and unknown needs. */
  lemma OrderedIsAcyclic(g: Graph, order: seq<string>)
    requires TopologicalOrder(g, order)
    ensures Acyclic(g) && NeedsKnown(g)
  {
    forall x ensures !OnCycle(g, x) {
      if OnCycle(g, x) {
        var p :| IsCycleThrough(g, p, x);
        assert Edge(g, p[0], p[1]);
        var i :| 0 <= i < |order| && order[i] == x;
        var j := PathDescends(g, order, p, i);
        assert false;
      }
    }
    forall a, b | Edge(g, a, b) ensures b in g {
      var i :| 0 <= i < |order| && order[i] == a;
      assert b in order[..i];
    }
  }

  // ----- the depth-first search -----

  class Sorter<P> {
    const byId: map<string, Step<P>>
    var visiting: set<string>
    var visited: set<string>
    var ordered: seq<Step<P>>

    constructor (byId: map<string, Step<P>>)
      requires forall x | x in byId :: byId[x].id == x
      ensures this.byId == byId && visiting == {} && visited == {} && ordered == []
      ensures Valid([])
    {
      this.byId := byId;
      visiting, visited, ordered := {}, {}, [];
    }

    ghost function Needs(): (g: Graph) { map x | x in byId :: byId[x].needs }

    ghost function Ids(): (ids: seq<string>)
      reads this
      ensures |ids| == |ordered| && forall i | 0 <= i < |ids| :: ids[i] == ordered[i].id
    {
      seq(|ordered|, i requires 0 <= i < |ordered| reads this => ordered[i].id)
    }

    /** `stack` is the path of nodes being visited, outermost first. */
    ghost predicate Valid(stack: seq<string>)
      reads this
    {
      && (forall x | x in byId :: byId[x].id == x)
      && visiting <= byId.Keys
      && (forall x :: x in visiting <==> x in stack)
      && (forall x :: x in visited <==> x in Ids())
      && visiting !! visited
      && NeedsFirst(Needs(), Ids())
      && (forall i | 0 <= i < |ordered| :: ordered[i].id in byId && ordered[i] == byId[ordered[i].id])
      && IsPath(Needs(), stack)
    }

    method Visit(node: string, ghost stack: seq<string>) returns (r: Verdict)
      requires Valid(stack)
      requires if stack == [] then node in byId else Edge(Needs(), stack[|stack| - 1], node)
      modifies this
      ensures r == Fine ==>
                && Valid(stack) && visiting == old(visiting) && Grown(old(visited), old(Ids()))
                && node in visited
      ensures r.Cyclic? ==> OnCycle(Needs(), r.id)
      ensures r.Missing? ==> r.id !in byId && exists a :: Edge(Needs(), a, r.id)
      decreases byId.Keys - visiting
    {
      if node in visited {
        return Fine;
      }
      if node in visiting {
        CycleOnStack(Needs(), stack, node);
        return Cyclic(node);
      }
      if node !in byId {
        return Missing(node);
      }
      ghost var path := stack + [node];
      visiting := visiting + {node};
      assert Valid(path) by { PathExtends(Needs(), stack, node); }
      var needs := byId[node].needs;
      var k := 0;
      while k < |needs|
        invariant 0 <= k <= |needs| && Valid(path) && visiting == old(visiting) + {node}
        invariant Grown(old(visited), old(Ids()))
        invariant forall j | 0 <= j < k :: needs[j] in visited
      {
        assert Edge(Needs(), path[|path| - 1], needs[k]);
        r := Visit(needs[k], path);
        if r != Fine {
          return;
        }
        k := k + 1;
      }
      FinishNode(node, stack);
      r := Fine;
    }

    ghost predicate Grown(visited0: set<string>, ids0: seq<string>)
      reads this
    {
      visited0 <= visited && ids0 <= Ids()
    }

    /** Leaving a node whose needs are all placed. */
    method FinishNode(node: string, ghost stack: seq<string>)
      requires Valid(stack + [node]) && node in byId && node !in stack
      requires forall b | b in byId[node].needs :: b in visited
      modifies this
      ensures Valid(stack) && visiting == old(visiting) - {node}
      ensures visited == old(visited) + {node} && Ids() == old(Ids()) + [node]
    {
      ghost var path := stack + [node];
      assert node in visiting by { assert path[|stack|] == node; }
      ghost var before := Ids();
      visiting := visiting - {node};
      visited := visited + {node};
      ordered := ordered + [byId[node]];
      assert Ids() == before + [node];
      NeedsFirstAppend(Needs(), before, node);
      assert IsPath(Needs(), stack) by { PathPrefix(Needs(), stack, node); }
      forall x ensures x in stack <==> x in visiting {
        assert x in path <==> x in stack || x == node;
      }
    }
  }

  datatype Verdict = Fine | Cyclic(id: string) | Missing(id: string)

  lemma PathExtends(g: Graph, stack: seq<string>, node: string)
    requires IsPath(g, stack) && (stack != [] ==> Edge(g, stack[|stack| - 1], node))
    ensures IsPath(g, stack + [node])
  {
  }

  lemma PathPrefix(g: Graph, stack: seq<string>, node: string)
    requires IsPath(g, stack + [node])
    ensures IsPath(g, stack)
  {
    var p := stack + [node];
    forall i | 0 <= i < |stack| - 1 ensures Edge(g, stack[i], stack[i + 1]) {
      assert p[i] == stack[i] && p[i + 1] == stack[i + 1];
    }
  }

  lemma NeedsFirstAppend(g: Graph, order: seq<string>, node: string)
    requires NeedsFirst(g, order) && node in g && node !in order && forall b | b in g[node] :: b in order
    ensures NeedsFirst(g, order + [node])
  {
    var next := order + [node];
    forall i | 0 <= i < |next| ensures next[i] in g && forall b | b in g[next[i]] :: b in next[..i] {
      assert next[..i] == if i < |order| then order[..i] else order;
    }
  }

  /** A node met again while it is being visited closes a cycle. */
  lemma CycleOnStack(g: Graph, stack: seq<string>, node: string)
    requires IsPath(g, stack) && node in stack && Edge(g, stack[|stack| - 1], node)
    ensures OnCycle(g, node)
  {
    var j :| 0 <= j < |stack| && stack[j] == node;
    var p := stack[j..] + [node];
    forall i | 0 <= i < |p| - 1 ensures Edge(g, p[i], p[i + 1]) {
      if i < |p| - 2 {
        assert Edge(g, stack[j + i], stack[j + i + 1]);
      }
    }
    assert IsCycleThrough(g, p, node);
  }

  // ----- the sort -----

  ghost function IdsOf<P>(steps: seq<Step<P>>): (ids: seq<string>)
    ensures |ids| == |steps| && forall i | 0 <= i < |ids| :: ids[i] == steps[i].id
  {
    seq(|steps|, i requires 0 <= i < |steps| => steps[i].id)
  }

  ghost predicate Sortable<P>(steps: seq<Step<P>>)
  {
    UniqueIds(steps) && NeedsKnown(GraphOf(steps)) && Acyclic(GraphOf(steps))
  }

  /** `_topological_sort` succeeds exactly on workflows with unique ids, known needs
      and no cycle; the result holds every step once, needs first; and each error
      names a real defect. */
  method Sort<P>(steps: seq<Step<P>>) returns (r: Outcome<P>)
    ensures r.Ordered? <==> Sortable(steps)
    ensures r.Ordered? ==> multiset(r.steps) == multiset(steps) && TopologicalOrder(GraphOf(steps), IdsOf(r.steps))
    ensures r.DuplicateIds? <==> !UniqueIds(steps)
    ensures r.CycleAt? ==> OnCycle(GraphOf(steps), r.id)
    ensures r.UnknownNeed? ==> r.id !in GraphOf(steps) && exists a :: Edge(GraphOf(steps), a, r.id)
  {
    var byId := IndexSteps(steps);
    IndexSize(steps);
    if |byId| != |steps| {
      return DuplicateIds;
    }
    IndexEntries(steps);
    var sorter := new Sorter(byId);
    assert sorter.Needs() == GraphOf(steps);
    r := VisitAll(sorter, steps);
    if r.Ordered? {
      OrderedIsAcyclic(GraphOf(steps), IdsOf(r.steps));
    }
  }

  method VisitAll<P>(sorter: Sorter<P>, steps: seq<Step<P>>) returns (r: Outcome<P>)
    requires UniqueIds(steps) && sorter.Valid([]) && sorter.visiting == {} && sorter.ordered == []
    requires sorter.byId == Index(steps) && sorter.Needs() == GraphOf(steps)
    modifies sorter
    ensures !r.DuplicateIds?
    ensures r.Ordered? ==> multiset(r.steps) == multiset(steps) && TopologicalOrder(GraphOf(steps), IdsOf(r.steps))
    ensures r.CycleAt? ==> OnCycle(GraphOf(steps), r.id)
    ensures r.UnknownNeed? ==> r.id !in GraphOf(steps) && exists a :: Edge(GraphOf(steps), a, r.id)
  {
    var k := 0;
    while k < |steps|
      invariant 0 <= k <= |steps| && sorter.Valid([]) && sorter.visiting == {}
      invariant forall j | 0 <= j < k :: steps[j].id in sorter.visited
    {
      IndexOfStep(steps, steps[k]);
      var verdict := sorter.Visit(steps[k].id, []);
      if verdict.Cyclic? {
        return CycleAt(verdict.id);
      }
      if verdict.Missing? {
        return UnknownNeed(verdict.id);
      }
      k := k + 1;
    }
    Placed(sorter, steps);
    r := Ordered(sorter.ordered);
  }

  /** Once every id is visited, the search has placed exactly the workflow's steps. */
  lemma {:induction false} Placed<P>(sorter: Sorter<P>, steps: seq<Step<P>>)
    requires UniqueIds(steps) && sorter.Valid([]) && sorter.byId == Index(steps) && sorter.Needs() == GraphOf(steps)
    requires forall j | 0 <= j < |steps| :: steps[j].id in sorter.visited
    ensures multiset(sorter.ordered) == multiset(steps) && TopologicalOrder(GraphOf(steps), IdsOf(sorter.ordered))
  {
    var ordered := sorter.ordered;
    assert sorter.Ids() == IdsOf(ordered);
    IndexEntries(steps);
    forall x | x in ordered ensures x in steps {
      var i :| 0 <= i < |ordered| && ordered[i] == x;
      assert sorter.byId[x.id] in steps;
    }
    forall i, j | 0 <= i < j < |ordered| ensures ordered[i].id != ordered[j].id {
      assert IdsOf(ordered)[i] != IdsOf(ordered)[j];
    }
    CoveredIsOrdered(steps, ordered);
  }

  lemma CoveredIsOrdered<P>(steps: seq<Step<P>>, ordered: seq<Step<P>>)
    requires UniqueIds(steps) && UniqueIds(ordered)
    requires forall x :: x in steps ==> x.id in IdsOf(ordered)
    requires forall x :: x in ordered ==> x in steps
    ensures multiset(ordered) == multiset(steps)
  {
    forall x | x in steps ensures x in ordered {
      var i :| 0 <= i < |ordered| && IdsOf(ordered)[i] == x.id;
      assert ordered[i] in steps;
      SameId(steps, ordered[i], x);
    }
    SameElements(ordered, steps);
  }

  lemma SameId<P>(steps: seq<Step<P>>, x: Step<P>, y: Step<P>)
    requires UniqueIds(steps) && x in steps && y in steps && x.id == y.id
    ensures x == y
  {
    var i :| 0 <= i < |steps| && steps[i] == x;
    var j :| 0 <= j < |steps| && steps[j] == y;
  }

  lemma {:induction false} CountOfDistinct<T>(s: seq<T>, x: T)
    requires forall i, j | 0 <= i < j < |s| :: s[i] != s[j]
    ensures multiset(s)[x] == if x in s then 1 else 0
  {
    if s != [] {
      var n := |s| - 1;
      assert s == s[..n] + [s[n]];
      CountOfDistinct(s[..n], x);
    }
  }

  lemma SameElements<T>(s: seq<T>, t: seq<T>)
    requires forall i, j | 0 <= i < j < |s| :: s[i] != s[j]
    requires forall i, j | 0 <= i < j < |t| :: t[i] != t[j]
    requires forall x :: x in s <==> x in t
    ensures multiset(s) == multiset(t)
  {
    forall x ensures multiset(s)[x] == multiset(t)[x] {
      CountOfDistinct(s, x);
      CountOfDistinct(t, x);
    }
  }

  // ----- the index by id -----

  method IndexSteps<P>(steps: seq<Step<P>>) returns (byId: map<string, Step<P>>)
    ensures byId == Index(steps)
  {
    byId := map[];
    var k := 0;
    while k < |steps|
      invariant 0 <= k <= |steps| && byId == Index(steps[..k])
    {
      assert steps[..k + 1][..k] == steps[..k];
      byId := byId[steps[k].id := steps[k]];
      k := k + 1;
    }
    assert steps[..k] == steps;
  }

  lemma UniqueSnoc<P>(steps: seq<Step<P>>, last: Step<P>)
    ensures UniqueIds(steps + [last]) <==> UniqueIds(steps) && last.id !in IdsOf(steps)
  {
    var all := steps + [last];
    if UniqueIds(all) {
      forall i, j | 0 <= i < j < |steps| ensures steps[i].id != steps[j].id {
        assert all[i].id != all[j].id;
      }
      forall i | 0 <= i < |steps| ensures steps[i].id != last.id {
        assert all[i].id != all[|steps|].id;
      }
    }
  }

  lemma SizeAfterUpdate<V>(m: map<string, V>, key: string, v: V)
    ensures |m[key := v]| == |m| + if key in m then 0 else 1
    ensures forall x :: x in m[key := v] <==> x in m || x == key
  {
    assert m[key := v].Keys == m.Keys + {key};
  }

  /** The index knows exactly the ids, and is as long as the workflow exactly when they are unique. */
  lemma {:induction false} IndexSize<P>(steps: seq<Step<P>>)
    ensures forall x :: x in Index(steps) <==> x in IdsOf(steps)
    ensures |Index(steps)| <= |steps| && (|Index(steps)| == |steps| <==> UniqueIds(steps))
  {
    if steps != [] {
      var n := |steps| - 1;
      IndexSize(steps[..n]);
      SizeAfterUpdate(Index(steps[..n]), steps[n].id, steps[n]);
      UniqueSnoc(steps[..n], steps[n]);
      assert steps == steps[..n] + [steps[n]];
      assert IdsOf(steps) == IdsOf(steps[..n]) + [steps[n].id];
    }
  }

  lemma {:induction false} IndexEntries<P>(steps: seq<Step<P>>)
    ensures forall x :: x in Index(steps) ==> Index(steps)[x].id == x && Index(steps)[x] in steps
  {
    if steps != [] {
      var n := |steps| - 1;
      IndexEntries(steps[..n]);
      assert steps == steps[..n] + [steps[n]];
    }
  }

  /** With unique ids each step is indexed under its own id. */
  lemma {:induction false} IndexOfStep<P>(steps: seq<Step<P>>, x: Step<P>)
    requires UniqueIds(steps) && x in steps
    ensures x.id in Index(steps) && Index(steps)[x.id] == x
    ensures x.id in GraphOf(steps) && GraphOf(steps)[x.id] == x.needs
  {
    IndexSize(steps);
    IndexEntries(steps);
    var i :| 0 <= i < |steps| && steps[i] == x;
    assert IdsOf(steps)[i] == x.id;
    SameId(steps, Index(steps)[x.id], x);
  }
}
