/**
 Plugin ordering: the greedy stable topological sort of the plugin host and
 the depth-first search that must exhibit a cycle when the sort gets stuck.

 The sort is specified against two references that do not mention it: cycles
 of the "depends on" relation, and the lexicographic order on registration
 indices over all orders that put dependencies first.
 */
module DependencyOrder {

  import opened Options

  type Id = string

  datatype Plugin = Plugin(id: Id, dependencies: seq<Id>)

  datatype MissingIssue = MissingIssue(pluginId: Id, dependencyId: Id, registeredIds: seq<Id>)

  datatype Outcome =
    | Ordered(plugins: seq<Plugin>)
    | MissingDependencies(issues: seq<MissingIssue>)
    | Cyclic(cycle: seq<Id>)

  // ----- The dependency graph -----

  ghost predicate UniqueIds(defs: seq<Plugin>) {
    forall i, j :: 0 <= i < j < |defs| ==> defs[i].id != defs[j].id
  }

  function Ids(defs: seq<Plugin>): set<Id> {
    set i | 0 <= i < |defs| :: defs[i].id
  }

  ghost predicate Registered(defs: seq<Plugin>) {
    forall i, d :: 0 <= i < |defs| && d in defs[i].dependencies ==> d in Ids(defs)
  }

  ghost predicate Edge(defs: seq<Plugin>, a: Id, b: Id) {
    exists i :: 0 <= i < |defs| && defs[i].id == a && b in defs[i].dependencies
  }

  // A closed walk along dependency edges.
  ghost predicate IsCycle(defs: seq<Plugin>, c: seq<Id>) {
    && |c| >= 2
    && c[0] == c[|c| - 1]
    && forall k :: 0 <= k < |c| - 1 ==> Edge(defs, c[k], c[k + 1])
  }

  // No id other than the repeated end point occurs twice.
  ghost predicate Simple(c: seq<Id>) {
    forall i, j :: 0 <= i < j < |c| - 1 ==> c[i] != c[j]
  }

  ghost predicate Acyclic(defs: seq<Plugin>) {
    forall c :: !IsCycle(defs, c)
  }

  // ----- Orders, as sequences of registration indices -----

  ghost predicate IsPermutation(p: seq<nat>, n: nat) {
    && |p| == n
    && (forall k :: 0 <= k < n ==> p[k] < n)
    && forall i, j :: 0 <= i < j < n ==> p[i] != p[j]
  }

  ghost predicate InRange(p: seq<nat>, n: nat) {
    forall k :: 0 <= k < |p| ==> p[k] < n
  }

  ghost function IdsAt(defs: seq<Plugin>, p: seq<nat>): set<Id>
    requires InRange(p, |defs|)
  {
    set k | 0 <= k < |p| :: defs[p[k]].id
  }

  ghost predicate DependenciesMet(defs: seq<Plugin>, i: nat, ids: set<Id>)
    requires i < |defs|
  {
    forall d :: d in defs[i].dependencies ==> d in ids
  }

  // Every registered plugin exactly once, each after all its dependencies.
  ghost predicate ValidOrder(defs: seq<Plugin>, p: seq<nat>) {
    && IsPermutation(p, |defs|)
    && forall k :: 0 <= k < |p| ==> DependenciesMet(defs, p[k], IdsAt(defs, p[..k]))
  }

  ghost predicate LexLeq(p: seq<nat>, q: seq<nat>) {
    p == q || exists k :: 0 <= k < |p| && k < |q| && p[..k] == q[..k] && p[k] < q[k]
  }

  ghost predicate LeastValidOrder(defs: seq<Plugin>, p: seq<nat>) {
    ValidOrder(defs, p) && forall q :: ValidOrder(defs, q) ==> LexLeq(p, q)
  }

  ghost function Pick(defs: seq<Plugin>, p: seq<nat>): (r: seq<Plugin>)
    requires InRange(p, |defs|)
  {
    seq(|p|, k requires 0 <= k < |p| => defs[p[k]])
  }

  // ----- Missing dependencies -----

  function RegisteredIds(defs: seq<Plugin>): seq<Id> {
    seq(|defs|, i requires 0 <= i < |defs| => defs[i].id)
  }

  function MissingOf(known: set<Id>, names: seq<Id>, id: Id, deps: seq<Id>): seq<MissingIssue> {
    if deps == [] then []
    else
      var rest := MissingOf(known, names, id, deps[..|deps| - 1]);
      var d := deps[|deps| - 1];
      if d in known then rest else rest + [MissingIssue(id, d, names)]
  }

  // The diagnostics for the first n definitions, in registration order.
  function MissingUpTo(defs: seq<Plugin>, n: nat): seq<MissingIssue>
    requires n <= |defs|
  {
    if n == 0 then []
    else MissingUpTo(defs, n - 1)
         + MissingOf(Ids(defs), RegisteredIds(defs), defs[n - 1].id, defs[n - 1].dependencies)
  }

  lemma {:induction false} MissingOfExact(known: set<Id>, names: seq<Id>, id: Id, deps: seq<Id>)
    ensures forall x :: x in MissingOf(known, names, id, deps) <==>
                        (x.pluginId == id && x.registeredIds == names
                         && x.dependencyId in deps && x.dependencyId !in known)
  {
    if deps != [] {
      var init, d := deps[..|deps| - 1], deps[|deps| - 1];
      MissingOfExact(known, names, id, init);
      assert deps == init + [d];
      if d !in known {
        assert MissingOf(known, names, id, deps)
            == MissingOf(known, names, id, init) + [MissingIssue(id, d, names)];
      }
    }
  }

  // A diagnostic is reported for exactly the unregistered dependencies.
  lemma {:induction false} MissingIssuesExact(defs: seq<Plugin>, n: nat)
    requires n <= |defs|
    ensures forall x :: x in MissingUpTo(defs, n) <==>
                        (x.registeredIds == RegisteredIds(defs)
                         && x.dependencyId !in Ids(defs)
                         && exists i :: 0 <= i < n && defs[i].id == x.pluginId && x.dependencyId in defs[i].dependencies)
  {
    if n > 0 {
      MissingIssuesExact(defs, n - 1);
      MissingOfExact(Ids(defs), RegisteredIds(defs), defs[n - 1].id, defs[n - 1].dependencies);
    }
  }

  lemma {:induction false} NoIssuesMeansRegistered(defs: seq<Plugin>)
    ensures MissingUpTo(defs, |defs|) == [] <==> Registered(defs)
  {
    MissingIssuesExact(defs, |defs|);
    var issues := MissingUpTo(defs, |defs|);
    if issues != [] {
      assert issues[0] in issues;
    }
    if !Registered(defs) {
      var i, d :| 0 <= i < |defs| && d in defs[i].dependencies && d !in Ids(defs);
      assert MissingIssue(defs[i].id, d, RegisteredIds(defs)) in issues;
    }
  }

  method ValidatePluginDependencies(defs: seq<Plugin>) returns (issues: seq<MissingIssue>)
    ensures issues == MissingUpTo(defs, |defs|)
    ensures forall x :: x in issues <==>
                        (x.registeredIds == RegisteredIds(defs)
                         && x.dependencyId !in Ids(defs)
                         && exists i :: 0 <= i < |defs| && defs[i].id == x.pluginId && x.dependencyId in defs[i].dependencies)
    ensures issues == [] <==> Registered(defs)
  {
    var knownIds := Ids(defs);
    issues := [];
    for i := 0 to |defs|
      invariant issues == MissingUpTo(defs, i)
    {
      var id, deps := defs[i].id, defs[i].dependencies;
      ghost var before := issues;
      for j := 0 to |deps|
        invariant issues == before + MissingOf(knownIds, RegisteredIds(defs), id, deps[..j])
      {
        assert deps[..j + 1][..j] == deps[..j];
        if deps[j] !in knownIds {
          issues := issues + [MissingIssue(id, deps[j], RegisteredIds(defs))];
        }
      }
      assert deps[..|deps|] == deps;
    }
    NoIssuesMeansRegistered(defs);
    MissingIssuesExact(defs, |defs|);
  }

  // ----- Cycle search -----

  // `new Map(...)`: a later definition with the same id replaces an earlier one.
  function PluginsById(defs: seq<Plugin>): (m: map<Id, Plugin>)
    ensures m.Keys == Ids(defs)
    ensures forall id :: id in m ==> m[id].id == id && m[id] in defs
  {
    if defs == [] then map[]
    else
      var last := defs[|defs| - 1];
      var m := PluginsById(defs[..|defs| - 1]);
      assert Ids(defs) == Ids(defs[..|defs| - 1]) + {last.id} by {
        forall id | id in Ids(defs) ensures id in Ids(defs[..|defs| - 1]) + {last.id} {
          var i :| 0 <= i < |defs| && defs[i].id == id;
          if i < |defs| - 1 { assert defs[..|defs| - 1][i].id == id; }
        }
        forall id | id in Ids(defs[..|defs| - 1]) ensures id in Ids(defs) {
          var i :| 0 <= i < |defs| - 1 && defs[..|defs| - 1][i].id == id;
          assert defs[i].id == id;
        }
      }
      m[last.id := last]
  }

  ghost predicate DependsOn(plugins: map<Id, Plugin>, a: Id, b: Id) {
    a in plugins && b in plugins && b in plugins[a].dependencies
  }

  ghost predicate IsSearchCycle(plugins: map<Id, Plugin>, c: seq<Id>) {
    && |c| >= 2
    && c[0] == c[|c| - 1]
    && Simple(c)
    && forall k :: 0 <= k < |c| - 1 ==> DependsOn(plugins, c[k], c[k + 1])
  }

  // Every id of f has all its registered dependencies earlier in f.
  ghost predicate PostOrder(plugins: map<Id, Plugin>, f: seq<Id>) {
    forall k, d :: 0 <= k < |f| && DependsOn(plugins, f[k], d) ==> d in f[..k]
  }

  // The search state: the stack is a simple path of dependency edges, its ids
  // are the ones being visited, and every other visited id is finished.
  ghost predicate SearchState(plugins: map<Id, Plugin>, visiting: set<Id>, visited: set<Id>,
                              stack: seq<Id>, finished: seq<Id>)
  {
    && visited <= plugins.Keys
    && visiting == (set x | x in stack)
    && visited == visiting + (set x | x in finished)
    && (forall i, j :: 0 <= i < j < |stack| ==> stack[i] != stack[j])
    && (forall k :: 0 <= k < |stack| - 1 ==> DependsOn(plugins, stack[k], stack[k + 1]))
    && PostOrder(plugins, finished)
  }

  lemma EnterState(plugins: map<Id, Plugin>, visiting: set<Id>, visited: set<Id>,
                   stack: seq<Id>, finished: seq<Id>, id: Id)
    requires SearchState(plugins, visiting, visited, stack, finished)
    requires id in plugins && id !in visited
    requires stack != [] ==> DependsOn(plugins, stack[|stack| - 1], id)
    ensures SearchState(plugins, visiting + {id}, visited + {id}, stack + [id], finished)
  {
  }

  lemma {:induction false} LeaveState(plugins: map<Id, Plugin>, visiting: set<Id>, visited: set<Id>,
                   stack: seq<Id>, finished: seq<Id>, id: Id)
    requires SearchState(plugins, visiting, visited, stack + [id], finished)
    requires forall d :: DependsOn(plugins, id, d) ==> d in finished
    ensures SearchState(plugins, visiting - {id}, visited, stack, finished + [id])
  {
    var full := stack + [id];
    assert forall k :: 0 <= k < |stack| ==> full[k] == stack[k];
    assert forall k :: 0 <= k < |stack| ==> full[k] != full[|stack|];
    assert id !in stack;
    assert visiting - {id} == (set x | x in stack);
    assert visited == (visiting - {id}) + (set x | x in finished + [id]);
    assert forall k :: 0 <= k < |stack| - 1 ==> DependsOn(plugins, full[k], full[k + 1]);
    var f := finished + [id];
    forall k, d | 0 <= k < |f| && DependsOn(plugins, f[k], d)
      ensures d in f[..k]
    {
      if k < |finished| {
        assert f[..k] == finished[..k];
      } else {
        assert f[..k] == finished;
      }
    }
  }

  lemma {:induction false} ClosedStackIsCycle(plugins: map<Id, Plugin>, visiting: set<Id>, visited: set<Id>,
                           stack: seq<Id>, finished: seq<Id>, id: Id, start: nat)
    requires SearchState(plugins, visiting, visited, stack, finished)
    requires start < |stack| && stack[start] == id
    requires DependsOn(plugins, stack[|stack| - 1], id)
    ensures IsSearchCycle(plugins, stack[start..] + [id])
  {
    var c := stack[start..] + [id];
    forall k | 0 <= k < |c| - 1
      ensures DependsOn(plugins, c[k], c[k + 1])
    {
      assert c[k] == stack[start + k];
      if k + 1 < |c| - 1 {
        assert c[k + 1] == stack[start + k + 1];
      }
    }
  }

  class CycleSearch {
    const plugins: map<Id, Plugin>
    var visiting: set<Id>
    var visited: set<Id>
    var stack: seq<Id>
    ghost var finished: seq<Id>

    ghost predicate Valid()
      reads this
    {
      SearchState(plugins, visiting, visited, stack, finished)
    }

    constructor (definitions: seq<Plugin>)
      ensures Valid() && stack == [] && finished == []
      ensures plugins == PluginsById(definitions)
    {
      plugins := PluginsById(definitions);
      visiting, visited, stack, finished := {}, {}, [], [];
    }

    // The recursive closure of the source. A returned cycle is genuine and
    // simple; without one the stack is restored and the id is finished.
    method Visit(pluginId: Id) returns (cycle: Option<seq<Id>>)
      requires Valid() && pluginId in plugins
      requires stack != [] ==> DependsOn(plugins, stack[|stack| - 1], pluginId)
      modifies this
      ensures cycle.Some? ==> IsSearchCycle(plugins, cycle.value)
      ensures cycle.None? ==> Valid() && stack == old(stack) && visited >= old(visited)
      ensures cycle.None? ==> pluginId in finished && old(finished) <= finished
      decreases plugins.Keys - visited, 0
    {
      if pluginId in visiting {
        var startIndex := IndexOf(pluginId);
        // The fallback for an id that is being visited but is not on the
        // stack cannot be taken.
        assert startIndex < |stack|;
        ClosedStackIsCycle(plugins, visiting, visited, stack, finished, pluginId, startIndex);
        return Some(stack[startIndex..] + [pluginId]);
      }

      if pluginId in visited {
        return None;
      }

      EnterState(plugins, visiting, visited, stack, finished, pluginId);
      visited := visited + {pluginId};
      visiting := visiting + {pluginId};
      stack := stack + [pluginId];

      cycle := VisitDependencies(pluginId);
      if cycle.Some? {
        return;
      }

      assert old(stack) + [pluginId] == stack;
      LeaveState(plugins, visiting, visited, old(stack), finished, pluginId);
      stack := stack[..|stack| - 1];
      visiting := visiting - {pluginId};
      finished := finished + [pluginId];
    }

    // `stack.indexOf(id)`, with the length standing for "not found".
    method IndexOf(id: Id) returns (index: nat)
      ensures index <= |stack| && id !in stack[..index]
      ensures index < |stack| ==> stack[index] == id
    {
      index := 0;
      while index < |stack| && stack[index] != id
        invariant index <= |stack|
        invariant id !in stack[..index]
      {
        index := index + 1;
      }
    }

    // The loop over the dependencies of the id on top of the stack.
    method VisitDependencies(pluginId: Id) returns (cycle: Option<seq<Id>>)
      requires Valid() && stack != [] && stack[|stack| - 1] == pluginId && pluginId in plugins
      modifies this
      ensures cycle.Some? ==> IsSearchCycle(plugins, cycle.value)
      ensures cycle.None? ==> Valid() && stack == old(stack) && visited >= old(visited)
      ensures cycle.None? ==> old(finished) <= finished
      ensures cycle.None? ==> forall d :: DependsOn(plugins, pluginId, d) ==> d in finished
      decreases plugins.Keys - visited, 1
    {
      var deps := plugins[pluginId].dependencies;
      for i := 0 to |deps|
        invariant Valid() && stack == old(stack) && visited >= old(visited)
        invariant old(finished) <= finished
        invariant forall j :: 0 <= j < i && deps[j] in plugins ==> deps[j] in finished
      {
        if deps[i] !in plugins {
          continue;
        }
        ghost var before := finished;
        cycle := Visit(deps[i]);
        if cycle.Some? {
          return;
        }
        assert forall x :: x in before ==> x in finished;
      }
      return None;
    }
  }

  method FindCycle(definitions: seq<Plugin>) returns (cycle: seq<Id>, ghost finished: seq<Id>)
    ensures cycle != [] ==> IsSearchCycle(PluginsById(definitions), cycle)
    ensures cycle == [] ==> PostOrder(PluginsById(definitions), finished)
    ensures cycle == [] ==> forall id :: id in Ids(definitions) ==> id in finished
  {
    var search := new CycleSearch(definitions);
    for i := 0 to |definitions|
      invariant search.Valid() && search.stack == []
      invariant search.plugins == PluginsById(definitions)
      invariant forall j :: 0 <= j < i ==> definitions[j].id in search.finished
      invariant fresh(search)
    {
      ghost var before := search.finished;
      var found := search.Visit(definitions[i].id);
      if found.Some? {
        return found.value, [];
      }
      assert before <= search.finished;
    }
    return [], search.finished;
  }

  // ----- Counting -----

  function Below(n: nat): (r: set<nat>)
    ensures |r| == n && forall i: nat :: i in r <==> i < n
  {
    if n == 0 then {} else Below(n - 1) + {n - 1}
  }

  function Elements(p: seq<nat>): set<nat> {
    set x | x in p
  }

  lemma {:induction false} ElementsSize(p: seq<nat>)
    ensures |Elements(p)| <= |p|
    ensures (forall i, j :: 0 <= i < j < |p| ==> p[i] != p[j]) ==> |Elements(p)| == |p|
  {
    if p != [] {
      var init, last := p[..|p| - 1], p[|p| - 1];
      ElementsSize(init);
      assert p == init + [last];
      assert Elements(p) == Elements(init) + {last};
      if forall i, j :: 0 <= i < j < |p| ==> p[i] != p[j] {
        assert forall i :: 0 <= i < |init| ==> init[i] == p[i];
        assert last !in Elements(init);
      }
    }
  }

  lemma {:induction false} SubsetSize(a: set<nat>, b: set<nat>)
    requires a <= b
    ensures |a| <= |b|
    ensures a != b ==> |a| < |b|
  {
    if a != {} {
      var x :| x in a;
      SubsetSize(a - {x}, b - {x});
      assert a == (a - {x}) + {x} && b == (b - {x}) + {x};
    }
  }

  lemma {:induction false} SomeIndexUnused(p: seq<nat>, n: nat) returns (i: nat)
    requires |p| < n
    ensures i < n && i !in p
  {
    ElementsSize(p);
    if Below(n) <= Elements(p) {
      SubsetSize(Below(n), Elements(p));
    }
    i :| i in Below(n) && i !in Elements(p);
  }

  lemma {:induction false} PermutationOnto(p: seq<nat>, n: nat, i: nat)
    requires IsPermutation(p, n) && i < n
    ensures i in p
  {
    ElementsSize(p);
    assert Elements(p) <= Below(n);
    SubsetSize(Elements(p), Below(n));
    assert i in Below(n);
  }

  // ----- What a valid order says about cycles -----

  lemma {:induction false} EdgeDescends(defs: seq<Plugin>, p: seq<nat>, a: Id, b: Id, i: nat) returns (j: nat)
    requires UniqueIds(defs) && ValidOrder(defs, p)
    requires Edge(defs, a, b) && i < |p| && defs[p[i]].id == a
    ensures j < i && defs[p[j]].id == b
  {
    var m :| 0 <= m < |defs| && defs[m].id == a && b in defs[m].dependencies;
    assert m == p[i];
    assert b in IdsAt(defs, p[..i]);
    j :| 0 <= j < |p[..i]| && defs[p[..i][j]].id == b;
  }

  lemma {:induction false} WalkDescends(defs: seq<Plugin>, p: seq<nat>, c: seq<Id>, n: nat, i: nat) returns (j: nat)
    requires UniqueIds(defs) && ValidOrder(defs, p)
    requires n < |c| && forall k :: 0 <= k < |c| - 1 ==> Edge(defs, c[k], c[k + 1])
    requires i < |p| && defs[p[i]].id == c[0]
    ensures j + n <= i && defs[p[j]].id == c[n]
    decreases n
  {
    if n == 0 {
      j := i;
    } else {
      var k := WalkDescends(defs, p, c, n - 1, i);
      j := EdgeDescends(defs, p, c[n - 1], c[n], k);
    }
  }

  lemma {:induction false} ValidOrderHasNoCycle(defs: seq<Plugin>, p: seq<nat>)
    requires UniqueIds(defs) && ValidOrder(defs, p)
    ensures Acyclic(defs)
  {
    forall c | IsCycle(defs, c)
      ensures false
    {
      assert Edge(defs, c[0], c[1]);
      var m :| 0 <= m < |defs| && defs[m].id == c[0];
      PermutationOnto(p, |defs|, m);
      var i :| 0 <= i < |p| && p[i] == m;
      var j := WalkDescends(defs, p, c, |c| - 1, i);
    }
  }

  // ----- The greedy choice -----

  ghost predicate Ready(defs: seq<Plugin>, ids: set<Id>, i: nat)
    requires i < |defs|
  {
    defs[i].id !in ids && DependenciesMet(defs, i, ids)
  }

  ghost predicate GreedyAt(defs: seq<Plugin>, p: seq<nat>, k: nat)
    requires InRange(p, |defs|) && k < |p|
  {
    && Ready(defs, IdsAt(defs, p[..k]), p[k])
    && forall i :: 0 <= i < p[k] ==> !Ready(defs, IdsAt(defs, p[..k]), i)
  }

  // Each element is the first registered plugin that is ready at its turn.
  ghost predicate Greedy(defs: seq<Plugin>, p: seq<nat>) {
    InRange(p, |defs|) && forall k :: 0 <= k < |p| ==> GreedyAt(defs, p, k)
  }

  lemma {:induction false} GreedyExtends(defs: seq<Plugin>, p: seq<nat>, i: nat)
    requires Greedy(defs, p) && i < |defs|
    requires Ready(defs, IdsAt(defs, p), i)
    requires forall j :: 0 <= j < i ==> !Ready(defs, IdsAt(defs, p), j)
    ensures Greedy(defs, p + [i])
    ensures IdsAt(defs, p + [i]) == IdsAt(defs, p) + {defs[i].id}
    ensures Pick(defs, p + [i]) == Pick(defs, p) + [defs[i]]
  {
    var q := p + [i];
    forall k | 0 <= k < |q|
      ensures GreedyAt(defs, q, k)
    {
      assert q[..k] == p[..k];
      if k < |p| {
        assert GreedyAt(defs, p, k);
      } else {
        assert p[..k] == p;
      }
    }
    forall x | x in IdsAt(defs, p) + {defs[i].id}
      ensures x in IdsAt(defs, q)
    {
      if x == defs[i].id {
        assert q[|p|] == i;
      } else {
        var k :| 0 <= k < |p| && defs[p[k]].id == x;
        assert q[k] == p[k];
      }
    }
  }

  lemma {:induction false} GreedyDistinct(defs: seq<Plugin>, p: seq<nat>, i: nat, j: nat)
    requires Greedy(defs, p) && i < j < |p|
    ensures defs[p[i]].id != defs[p[j]].id
  {
    assert GreedyAt(defs, p, j);
    assert p[..j][i] == p[i];
  }

  // A greedy order that covers the list shows that ids are unique.
  lemma {:induction false} GreedyComplete(defs: seq<Plugin>, p: seq<nat>)
    requires Greedy(defs, p) && |p| == |defs|
    ensures UniqueIds(defs) && ValidOrder(defs, p)
  {
    forall i, j | 0 <= i < j < |p|
      ensures p[i] != p[j]
    {
      GreedyDistinct(defs, p, i, j);
    }
    forall k | 0 <= k < |p|
      ensures DependenciesMet(defs, p[k], IdsAt(defs, p[..k]))
    {
      assert GreedyAt(defs, p, k);
    }
    forall i, j | 0 <= i < j < |defs|
      ensures defs[i].id != defs[j].id
    {
      PermutationOnto(p, |defs|, i);
      PermutationOnto(p, |defs|, j);
      var a :| 0 <= a < |p| && p[a] == i;
      var b :| 0 <= b < |p| && p[b] == j;
      if a < b { GreedyDistinct(defs, p, a, b); } else { GreedyDistinct(defs, p, b, a); }
    }
  }

  lemma {:induction false} FirstDifference(p: seq<nat>, q: seq<nat>) returns (k: nat)
    requires |p| == |q| && p != q
    ensures k < |p| && p[..k] == q[..k] && p[k] != q[k]
  {
    if p[0] != q[0] {
      k := 0;
    } else {
      assert p == [p[0]] + p[1..] && q == [q[0]] + q[1..];
      var m := FirstDifference(p[1..], q[1..]);
      k := m + 1;
      assert p[..k] == [p[0]] + p[1..][..m];
      assert q[..k] == [q[0]] + q[1..][..m];
    }
  }

  lemma ValidOrderIsReady(defs: seq<Plugin>, q: seq<nat>, k: nat)
    requires UniqueIds(defs) && ValidOrder(defs, q) && k < |q|
    ensures Ready(defs, IdsAt(defs, q[..k]), q[k])
  {
  }

  // The greedy order is below every valid order.
  lemma {:induction false} GreedyIsLeast(defs: seq<Plugin>, p: seq<nat>)
    requires Greedy(defs, p) && |p| == |defs|
    ensures LeastValidOrder(defs, p)
  {
    GreedyComplete(defs, p);
    forall q | ValidOrder(defs, q)
      ensures LexLeq(p, q)
    {
      if p != q {
        var k := FirstDifference(p, q);
        ValidOrderIsReady(defs, q, k);
        assert GreedyAt(defs, p, k);
      }
    }
  }

  // There is only one least order, so the result is determined.
  lemma LexAntisymmetric(p: seq<nat>, q: seq<nat>)
    requires LexLeq(p, q) && LexLeq(q, p)
    ensures p == q
  {
  }

  lemma {:induction false} LeastOrderUnique(defs: seq<Plugin>, p: seq<nat>, q: seq<nat>)
    requires LeastValidOrder(defs, p) && LeastValidOrder(defs, q)
    ensures p == q
  {
    hide ValidOrder, LexLeq;
    LexAntisymmetric(p, q);
  }

  // A list that already has every dependency strictly earlier.
  ghost predicate InDependencyOrder(defs: seq<Plugin>) {
    forall k, d :: 0 <= k < |defs| && d in defs[k].dependencies ==> d in Ids(defs[..k])
  }

  function RegistrationOrder(n: nat): (r: seq<nat>) {
    seq(n, k => k)
  }

  lemma {:induction false} NotAmongFirst(q: seq<nat>, k: nat, v: nat)
    requires k <= |q| && forall j :: 0 <= j < k ==> q[j] == j && q[j] != v
    ensures k <= v
  {
    if k > 0 {
      NotAmongFirst(q, k - 1, v);
      assert q[k - 1] == k - 1;
    }
  }

  lemma {:induction false} RegistrationOrderIsLeast(q: seq<nat>)
    requires IsPermutation(q, |q|)
    ensures LexLeq(RegistrationOrder(|q|), q)
  {
    var id := RegistrationOrder(|q|);
    if id != q {
      var k := FirstDifference(id, q);
      forall j | 0 <= j < k
        ensures q[j] == j && q[j] != q[k]
      {
        assert q[..k][j] == q[j] && id[..k][j] == j;
      }
      NotAmongFirst(q, k, q[k]);
    }
  }

  lemma {:induction false} RegistrationOrderIsValid(defs: seq<Plugin>)
    requires InDependencyOrder(defs)
    ensures ValidOrder(defs, RegistrationOrder(|defs|))
  {
    var id := RegistrationOrder(|defs|);
    forall k | 0 <= k < |id|
      ensures DependenciesMet(defs, id[k], IdsAt(defs, id[..k]))
    {
      forall d | d in defs[k].dependencies
        ensures d in IdsAt(defs, id[..k])
      {
        var m :| 0 <= m < |defs[..k]| && defs[..k][m].id == d;
        assert id[..k][m] == m;
      }
    }
  }

  // Such a list is its own least order, so the resolver returns it unchanged.
  lemma {:induction false} DependencyOrderIsKept(defs: seq<Plugin>, order: seq<nat>)
    requires InDependencyOrder(defs) && LeastValidOrder(defs, order)
    ensures Pick(defs, order) == defs
  {
    var id := RegistrationOrder(|defs|);
    RegistrationOrderIsValid(defs);
    forall q | ValidOrder(defs, q)
      ensures LexLeq(id, q)
    {
      RegistrationOrderIsLeast(q);
    }
    LeastOrderUnique(defs, order, id);
  }

  // ----- Getting stuck -----

  function Unresolved(defs: seq<Plugin>, resolved: set<Id>): (r: seq<Plugin>)
    ensures forall x :: x in r <==> x in defs && x.id !in resolved
  {
    if defs == [] then []
    else
      var rest := Unresolved(defs[..|defs| - 1], resolved);
      var last := defs[|defs| - 1];
      assert defs == defs[..|defs| - 1] + [last];
      if last.id in resolved then rest else rest + [last]
  }

  // Every unresolved plugin waits for another unresolved plugin.
  ghost predicate Stuck(defs: seq<Plugin>, resolved: set<Id>) {
    forall i :: 0 <= i < |defs| ==> !Ready(defs, resolved, i)
  }

  lemma {:induction false} StuckHasNoPostOrder(defs: seq<Plugin>, resolved: set<Id>, f: seq<Id>, k: nat)
    requires Registered(defs) && Stuck(defs, resolved)
    requires PostOrder(PluginsById(Unresolved(defs, resolved)), f) && k < |f|
    ensures f[k] !in Ids(Unresolved(defs, resolved))
    decreases k
  {
    var u := Unresolved(defs, resolved);
    var plugins := PluginsById(u);
    if f[k] in Ids(u) {
      var plugin := plugins[f[k]];
      assert plugin in u;
      var i :| 0 <= i < |defs| && defs[i] == plugin;
      assert !Ready(defs, resolved, i);
      var d :| d in plugin.dependencies && d !in resolved;
      assert d in Ids(defs);
      var j :| 0 <= j < |defs| && defs[j].id == d;
      assert defs[j] in u;
      var m :| 0 <= m < |u| && u[m] == defs[j];
      assert u[m].id == d;
      assert d in Ids(u);
      assert DependsOn(plugins, f[k], d);
      var e :| 0 <= e < |f[..k]| && f[..k][e] == d;
      StuckHasNoPostOrder(defs, resolved, f, e);
    }
  }

  lemma {:induction false} SearchCycleIsCycle(defs: seq<Plugin>, resolved: set<Id>, c: seq<Id>)
    requires IsSearchCycle(PluginsById(Unresolved(defs, resolved)), c)
    ensures IsCycle(defs, c) && Simple(c)
    ensures forall x :: x in c ==> x in Ids(defs) && x !in resolved
  {
    var plugins := PluginsById(Unresolved(defs, resolved));
    forall k | 0 <= k < |c| - 1
      ensures Edge(defs, c[k], c[k + 1])
    {
      assert DependsOn(plugins, c[k], c[k + 1]);
      var plugin := plugins[c[k]];
      assert plugin in defs;
    }
    forall k | 0 <= k < |c|
      ensures c[k] in Ids(defs) && c[k] !in resolved
    {
      var m := if k < |c| - 1 then k else k - 1;
      assert DependsOn(plugins, c[m], c[m + 1]);
      var plugin := plugins[c[k]];
      assert plugin in defs && plugin.id !in resolved;
    }
  }

  // When the sort is stuck the search reports a cycle among the unresolved
  // plugins, unless every id is resolved and only duplicate ids remain.
  lemma {:induction false} StuckOutcome(defs: seq<Plugin>, p: seq<nat>, cycle: seq<Id>, finished: seq<Id>)
    requires Registered(defs) && Greedy(defs, p) && |p| < |defs|
    requires Stuck(defs, IdsAt(defs, p))
    requires cycle != [] ==> IsSearchCycle(PluginsById(Unresolved(defs, IdsAt(defs, p))), cycle)
    requires cycle == [] ==> PostOrder(PluginsById(Unresolved(defs, IdsAt(defs, p))), finished)
    requires cycle == [] ==> forall id :: id in Ids(Unresolved(defs, IdsAt(defs, p))) ==> id in finished
    ensures cycle != [] ==> IsCycle(defs, cycle) && Simple(cycle)
    ensures cycle == [] ==> !UniqueIds(defs)
  {
    var resolved := IdsAt(defs, p);
    if cycle != [] {
      SearchCycleIsCycle(defs, resolved, cycle);
    } else {
      var u := Unresolved(defs, resolved);
      if u != [] {
        assert u[0].id in Ids(u);
        var k :| 0 <= k < |finished| && finished[k] == u[0].id;
        StuckHasNoPostOrder(defs, resolved, finished, k);
      }
      var i := SomeIndexUnused(p, |defs|);
      assert defs[i] !in u;
      var k :| 0 <= k < |p| && defs[p[k]].id == defs[i].id;
      assert p[k] != i;
    }
  }

  // ----- The resolver -----

  method ResolvePluginOrder(defs: seq<Plugin>) returns (r: Outcome, ghost order: seq<nat>)
    ensures r.Ordered? <==> UniqueIds(defs) && Registered(defs) && Acyclic(defs)
    ensures r.Ordered? ==> LeastValidOrder(defs, order) && r.plugins == Pick(defs, order)
    ensures r.MissingDependencies? <==> !Registered(defs)
    ensures r.MissingDependencies? ==> r.issues == MissingUpTo(defs, |defs|)
    ensures r.Cyclic? && r.cycle != [] ==> IsCycle(defs, r.cycle) && Simple(r.cycle)
    ensures r.Cyclic? && r.cycle == [] ==> !UniqueIds(defs)
  {
    order := [];
    var issues := ValidatePluginDependencies(defs);
    if |issues| > 0 {
      return MissingDependencies(issues), order;
    }

    var ordered: seq<Plugin> := [];
    var resolvedIds: set<Id> := {};
    while |ordered| < |defs|
      invariant Greedy(defs, order) && ordered == Pick(defs, order)
      invariant |order| <= |defs| && resolvedIds == IdsAt(defs, order)
    {
      var next := FirstReady(defs, resolvedIds);
      if next.None? {
        var unresolved := Unresolved(defs, resolvedIds);
        var cycle, finished := FindCycle(unresolved);
        StuckOutcome(defs, order, cycle, finished);
        return Cyclic(cycle), order;
      }
      GreedyExtends(defs, order, next.value);
      order := order + [next.value];
      resolvedIds := resolvedIds + {defs[next.value].id};
      ordered := ordered + [defs[next.value]];
    }
    GreedyComplete(defs, order);
    GreedyIsLeast(defs, order);
    ValidOrderHasNoCycle(defs, order);
    return Ordered(ordered), order;
  }

  // The scan for the ready candidate with the smallest registration index.
  method FirstReady(defs: seq<Plugin>, resolvedIds: set<Id>) returns (next: Option<nat>)
    ensures next.None? ==> Stuck(defs, resolvedIds)
    ensures next.Some? ==> next.value < |defs| && Ready(defs, resolvedIds, next.value)
    ensures next.Some? ==> forall j :: 0 <= j < next.value ==> !Ready(defs, resolvedIds, j)
  {
    next := None;
    for i := 0 to |defs|
      invariant next.None? ==> forall j :: 0 <= j < i ==> !Ready(defs, resolvedIds, j)
      invariant next.Some? ==> next.value < i && Ready(defs, resolvedIds, next.value)
      invariant next.Some? ==> forall j :: 0 <= j < next.value ==> !Ready(defs, resolvedIds, j)
    {
      if defs[i].id in resolvedIds {
        continue;
      }
      var ready := forall d | d in defs[i].dependencies :: d in resolvedIds;
      if ready && (next.None? || i < next.value) {
        next := Some(i);
      }
    }
  }
}
