/**
 The graph of Activity dependencies: an edge leads from an Activity to the one it depends on.
 `relates_to` entries are not edges.
 */
module DependencyGraph {
  type Id = string

  datatype Kind = Blocks | Follows | RelatesTo

  datatype Dependency = Dependency(id: Id, activityId: Id, dependsOn: Id, kind: Kind, version: nat)

  ghost predicate HasEdge(deps: seq<Dependency>, a: Id, b: Id) {
    exists d :: d in deps && d.kind != RelatesTo && d.activityId == a && d.dependsOn == b
  }

  ghost predicate IsPath(deps: seq<Dependency>, path: seq<Id>) {
    path != [] && forall i :: 0 <= i < |path| - 1 ==> HasEdge(deps, path[i], path[i + 1])
  }

  ghost predicate Joins(deps: seq<Dependency>, path: seq<Id>, a: Id, b: Id) {
    IsPath(deps, path) && path[0] == a && path[|path| - 1] == b
  }

  ghost predicate Reaches(deps: seq<Dependency>, a: Id, b: Id) {
    exists path :: Joins(deps, path, a, b)
  }

  /** A path of one or more edges that returns to its start. */
  ghost predicate IsCycle(deps: seq<Dependency>, path: seq<Id>) {
    IsPath(deps, path) && |path| > 1 && path[0] == path[|path| - 1]
  }

  ghost predicate Acyclic(deps: seq<Dependency>) {
    forall path :: !IsCycle(deps, path)
  }

  lemma ReachesSelf(deps: seq<Dependency>, a: Id)
    ensures Reaches(deps, a, a)
  {
    assert Joins(deps, [a], a, a);
  }

  lemma ReachesFirst(deps: seq<Dependency>, a: Id, b: Id, c: Id)
    requires HasEdge(deps, a, b) && Reaches(deps, b, c)
    ensures Reaches(deps, a, c)
  {
    var path :| Joins(deps, path, b, c);
    assert Joins(deps, [a] + path, a, c);
  }

  lemma ReachesLast(deps: seq<Dependency>, a: Id, b: Id, c: Id)
    requires Reaches(deps, a, b) && HasEdge(deps, b, c)
    ensures Reaches(deps, a, c)
  {
    var path :| Joins(deps, path, a, b);
    assert Joins(deps, path + [c], a, c);
  }

  lemma ReachesTransitive(deps: seq<Dependency>, a: Id, b: Id, c: Id)
    requires Reaches(deps, a, b) && Reaches(deps, b, c)
    ensures Reaches(deps, a, c)
  {
    var p :| Joins(deps, p, a, b);
    var q :| Joins(deps, q, b, c);
    var path := p + q[1..];
    forall i | 0 <= i < |path| - 1
      ensures HasEdge(deps, path[i], path[i + 1])
    {
      if i >= |p| - 1 {
        var j := i - (|p| - 1);
        assert path[i] == q[j] && path[i + 1] == q[j + 1];
      }
    }
    assert Joins(deps, path, a, c);
  }

  lemma EdgesOfAppend(deps: seq<Dependency>, d: Dependency, a: Id, b: Id)
    ensures HasEdge(deps + [d], a, b) <==>
            HasEdge(deps, a, b) || (d.kind != RelatesTo && d.activityId == a && d.dependsOn == b)
  {
  }

  /** A path over one more edge either avoids it, or arrives at its start and continues from its end. */
  lemma {:induction false} PathOverNewEdge(deps: seq<Dependency>, d: Dependency, path: seq<Id>)
    requires IsPath(deps + [d], path) && d.kind != RelatesTo
    ensures || IsPath(deps, path)
            || (Reaches(deps, path[0], d.activityId) && Reaches(deps, d.dependsOn, path[|path| - 1]))
  {
    if |path| > 1 {
      var tail := path[1..];
      forall i | 0 <= i < |tail| - 1
        ensures HasEdge(deps + [d], tail[i], tail[i + 1])
      {
        assert HasEdge(deps + [d], path[i + 1], path[i + 2]);
      }
      PathOverNewEdge(deps, d, tail);
      assert HasEdge(deps + [d], path[0], path[1]);
      EdgesOfAppend(deps, d, path[0], path[1]);
      if !HasEdge(deps, path[0], path[1]) {
        ReachesSelf(deps, d.activityId);
        if IsPath(deps, tail) {
          assert Joins(deps, tail, d.dependsOn, path[|path| - 1]);
        }
      } else if IsPath(deps, tail) {
        assert forall i :: 0 < i < |path| - 1 ==> path[i] == tail[i - 1] && path[i + 1] == tail[i];
      } else {
        ReachesFirst(deps, path[0], path[1], d.activityId);
      }
    }
  }

  /** Adding an edge to an acyclic graph closes a cycle exactly when its end reaches its start. */
  lemma NewEdgeClosesCycleIff(deps: seq<Dependency>, d: Dependency)
    requires Acyclic(deps) && d.kind != RelatesTo
    ensures Acyclic(deps + [d]) <==> !Reaches(deps, d.dependsOn, d.activityId)
  {
    if Reaches(deps, d.dependsOn, d.activityId) {
      var back :| Joins(deps, back, d.dependsOn, d.activityId);
      var cycle := [d.activityId] + back;
      forall i | 0 <= i < |cycle| - 1
        ensures HasEdge(deps + [d], cycle[i], cycle[i + 1])
      {
        EdgesOfAppend(deps, d, cycle[i], cycle[i + 1]);
        assert i > 0 ==> HasEdge(deps, back[i - 1], back[i]);
      }
      assert IsCycle(deps + [d], cycle);
    } else {
      forall path
        ensures !IsCycle(deps + [d], path)
      {
        if IsCycle(deps + [d], path) {
          assert !IsCycle(deps, path);
          PathOverNewEdge(deps, d, path);
          ReachesTransitive(deps, d.dependsOn, path[0], d.activityId);
        }
      }
    }
  }

  lemma FewerEdgesStayAcyclic(deps: seq<Dependency>, fewer: seq<Dependency>)
    requires Acyclic(deps)
    requires forall d :: d in fewer && d.kind != RelatesTo ==> d in deps
    ensures Acyclic(fewer)
  {
    forall path
      ensures !IsCycle(fewer, path)
    {
      assert !IsCycle(deps, path);
    }
  }

  lemma SingleEdgeAcyclic(edge: Dependency)
    requires edge.kind != RelatesTo && edge.activityId != edge.dependsOn
    ensures Acyclic([edge])
  {
    forall path
      ensures |path| > 1 ==> !IsPath([], path)
    {
      NoEdges(path);
    }
    assert [] + [edge] == [edge];
    NewEdgeClosesCycleIff([], edge);
  }

  lemma NoEdges(path: seq<Id>)
    ensures |path| > 1 ==> !IsPath([], path)
  {
    if |path| > 1 {
      assert !HasEdge([], path[0], path[1]);
    }
  }

  // ----- the worklist search -----

  /** The Activities that `current` depends on, in the order of the dependency list. */
  function Predecessors(deps: seq<Dependency>, current: Id): (ids: seq<Id>)
    ensures forall b :: b in ids <==> HasEdge(deps, current, b)
  {
    if deps == [] then []
    else
      var rest := Predecessors(deps[1..], current);
      var d := deps[0];
      assert forall e :: e in deps <==> e == d || e in deps[1..];
      if d.activityId == current && d.kind != RelatesTo then [d.dependsOn] + rest else rest
  }

  ghost function Targets(deps: seq<Dependency>): set<Id> {
    set d | d in deps :: d.dependsOn
  }

  /** An Activity that the search may hold on its worklist. */
  ghost predicate Discovered(deps: seq<Dependency>, start: Id, a: Id) {
    a != "" && a in {start} + Targets(deps) && Reaches(deps, start, a)
  }

  lemma {:induction false} ClosedUnderEdges(deps: seq<Dependency>, visited: set<Id>, path: seq<Id>)
    requires IsPath(deps, path) && path[0] in visited
    requires forall a, b :: a in visited && HasEdge(deps, a, b) ==> b in visited
    ensures path[|path| - 1] in visited
  {
    for i := 0 to |path| - 1
      invariant path[i] in visited
    {
      assert HasEdge(deps, path[i], path[i + 1]);
    }
  }

  /** The depth-first search of `addActivityDependency`: does `predecessor` already depend on `activity`? */
  method DependsOn(deps: seq<Dependency>, predecessor: Id, activity: Id) returns (reached: bool)
    requires predecessor != "" && activity != "" && forall d :: d in deps ==> d.dependsOn != ""
    ensures reached <==> Reaches(deps, predecessor, activity)
  {
    ReachesSelf(deps, predecessor);
    var pending := [predecessor];
    var visited: set<Id> := {};
    while |pending| > 0
      invariant activity !in visited
      invariant visited <= {predecessor} + Targets(deps)
      invariant predecessor in visited || predecessor in pending
      invariant forall a :: a in pending ==> Discovered(deps, predecessor, a)
      invariant forall a, b :: a in visited && HasEdge(deps, a, b) ==> b in visited || b in pending
      decreases {predecessor} + Targets(deps) - visited, |pending|
    {
      var current := pending[|pending| - 1];
      assert Discovered(deps, predecessor, current);
      assert forall a :: a in pending <==> a == current || a in pending[..|pending| - 1];
      pending := pending[..|pending| - 1];
      if current == "" || current in visited {
        continue;
      }
      if current == activity {
        return true;
      }
      forall b | HasEdge(deps, current, b)
        ensures Discovered(deps, predecessor, b)
      {
        ReachesLast(deps, predecessor, current, b);
      }
      visited := visited + {current};
      var found := Predecessors(deps, current);
      assert forall a :: a in pending + found <==> a in pending || HasEdge(deps, current, a);
      pending := pending + found;
    }
    if Reaches(deps, predecessor, activity) {
      ghost var path :| Joins(deps, path, predecessor, activity);
      ClosedUnderEdges(deps, visited, path);
    }
    return false;
  }

  /** The search's verdict on a new edge, in terms of the graph it would produce. */
  method ClosesCycle(deps: seq<Dependency>, edge: Dependency) returns (closes: bool)
    requires Acyclic(deps) && edge.kind != RelatesTo
    requires edge.dependsOn != "" && edge.activityId != "" && forall d :: d in deps ==> d.dependsOn != ""
    ensures closes <==> !Acyclic(deps + [edge])
  {
    closes := DependsOn(deps, edge.dependsOn, edge.activityId);
    NewEdgeClosesCycleIff(deps, edge);
  }
}
