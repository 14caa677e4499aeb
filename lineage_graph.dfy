/**
 * The dependency graph of a script (`DependencyGraph` and `VarNode` in
 * autoreport/capture/lineage.py) and its origin query: a breadth-first
 * search from a variable back to the object whose model method produced it.
 */
module LineageGraph {
  import opened Wrappers

  /** One variable: every name read on the right of its assignments, and the last method call seen. */
  datatype VarNode = VarNode(
    name: string,
    assignedFrom: set<string>,
    methodCall: Option<string>,
    parentObj: Option<string>)

  type Nodes = map<string, VarNode>

  /** The node a fresh `VarNode(target)` starts as. */
  function EmptyNode(target: string): VarNode {
    VarNode(target, {}, None, None)
  }

  /**
   * The node dictionary after `add_assignment(target, deps, method, parent)`:
   * the target node is created when absent, its dependencies grow by `deps`,
   * and the method and receiver are overwritten only by truthy values.
   */
  function Assigned(nodes: Nodes, target: string, deps: set<string>,
                    methodName: Option<string>, parentName: Option<string>): (r: Nodes)
    ensures r.Keys == nodes.Keys + {target}
    ensures forall k :: k in nodes && k != target ==> r[k] == nodes[k]
    ensures target !in nodes ==> r[target].name == target
    ensures target in nodes ==> r[target].name == nodes[target].name
    ensures target in nodes ==> nodes[target].assignedFrom <= r[target].assignedFrom
    ensures deps <= r[target].assignedFrom
    ensures r[target].assignedFrom - deps <= (if target in nodes then nodes[target].assignedFrom else {})
    ensures Truthy(methodName) ==> r[target].methodCall == methodName
    ensures !Truthy(methodName) ==> r[target].methodCall == (if target in nodes then nodes[target].methodCall else None)
    ensures Truthy(parentName) ==> r[target].parentObj == parentName
    ensures !Truthy(parentName) ==> r[target].parentObj == (if target in nodes then nodes[target].parentObj else None)
  {
    var prior := if target in nodes then nodes[target] else EmptyNode(target);
    nodes[target := prior.(
      assignedFrom := prior.assignedFrom + deps,
      methodCall := if Truthy(methodName) then methodName else prior.methodCall,
      parentObj := if Truthy(parentName) then parentName else prior.parentObj)]
  }

  /** Every node is stored under its own name. */
  predicate NamedByKey(nodes: Nodes) {
    forall k :: k in nodes ==> nodes[k].name == k
  }

  /**
   * What the graph builder guarantees besides names: a receiver is only ever
   * recorded when truthy, and it is then also one of the node's dependencies.
   */
  predicate WellFormed(nodes: Nodes) {
    NamedByKey(nodes) &&
    forall k :: k in nodes && nodes[k].parentObj.Some? ==>
      Truthy(nodes[k].parentObj) && nodes[k].parentObj.value in nodes[k].assignedFrom
  }

  /** An assignment whose truthy receiver is among its dependencies keeps the graph well formed. */
  lemma AssignedWellFormed(nodes: Nodes, target: string, deps: set<string>,
                           methodName: Option<string>, parentName: Option<string>)
    requires WellFormed(nodes)
    requires Truthy(parentName) ==> parentName.value in deps
    ensures WellFormed(Assigned(nodes, target, deps, methodName, parentName))
  {
  }

  /** The method names whose receiver counts as the model that produced a value. */
  const ModelOps: set<string> :=
    {"predict", "predict_proba", "fit", "transform", "score", "decision_function"}

  /** The success test of `get_origin_model` on one node. */
  predicate Qualifies(nodes: Nodes, x: string) {
    x in nodes && nodes[x].methodCall.Some? && nodes[x].methodCall.value in ModelOps
    && Truthy(nodes[x].parentObj)
  }

  /** `p` walks from node to dependency: each step goes from a node to a name in its `assignedFrom`. */
  ghost predicate IsPath(nodes: Nodes, p: seq<string>)
    decreases |p|
  {
    |p| >= 1 &&
    (|p| == 1 || (p[0] in nodes && p[1] in nodes[p[0]].assignedFrom && IsPath(nodes, p[1..])))
  }

  ghost predicate PathFromTo(nodes: Nodes, p: seq<string>, s: string, x: string) {
    IsPath(nodes, p) && p[0] == s && p[|p| - 1] == x
  }

  /** `x` is `s` itself or something `s` was transitively computed from. */
  ghost predicate Reaches(nodes: Nodes, s: string, x: string) {
    exists p :: PathFromTo(nodes, p, s, x)
  }

  /** `o` is a possible answer of the origin query for `s`: the receiver of a reachable qualifying node. */
  ghost predicate IsOrigin(nodes: Nodes, s: string, o: string) {
    exists x :: Reaches(nodes, s, x) && Qualifies(nodes, x) && nodes[x].parentObj == Some(o)
  }

  /** Some node reachable from `s` qualifies. */
  ghost predicate HasOrigin(nodes: Nodes, s: string) {
    exists x :: Reaches(nodes, s, x) && Qualifies(nodes, x)
  }

  lemma {:induction false} PathExtend(nodes: Nodes, p: seq<string>, w: string)
    requires IsPath(nodes, p)
    requires p[|p| - 1] in nodes && w in nodes[p[|p| - 1]].assignedFrom
    ensures IsPath(nodes, p + [w])
    decreases |p|
  {
    if |p| > 1 {
      PathExtend(nodes, p[1..], w);
      assert (p + [w])[1..] == p[1..] + [w];
    }
  }

  /**
   * No dependency edge leaves `inside` towards a node outside it, except to
   * names still waiting in `pending`.
   */
  ghost predicate ClosedUpTo(nodes: Nodes, inside: set<string>, pending: seq<string>) {
    forall v, w :: v in inside && v in nodes && w in nodes[v].assignedFrom && w in nodes ==>
      w in inside || w in pending
  }

  /** A path that starts inside a closed set of nodes never leaves it (or leaves the graph). */
  lemma {:induction false} ClosedContainsPath(nodes: Nodes, inside: set<string>, p: seq<string>)
    requires ClosedUpTo(nodes, inside, [])
    requires IsPath(nodes, p)
    requires p[0] in inside || p[0] !in nodes
    ensures p[|p| - 1] in inside || p[|p| - 1] !in nodes
    decreases |p|
  {
    if |p| > 1 {
      ClosedContainsPath(nodes, inside, p[1..]);
    }
  }

  /** A resolved origin is itself a name the start variable was transitively computed from. */
  lemma OriginIsDependency(nodes: Nodes, s: string, o: string)
    requires WellFormed(nodes)
    requires IsOrigin(nodes, s, o)
    ensures exists x :: Reaches(nodes, s, x) && x in nodes && o in nodes[x].assignedFrom
  {
    var x :| Reaches(nodes, s, x) && Qualifies(nodes, x) && nodes[x].parentObj == Some(o);
    assert o in nodes[x].assignedFrom;
  }

  /** A start name inside a region that no edge leaves and where nothing qualifies has no origin. */
  lemma NoOriginInClosedRegion(nodes: Nodes, inside: set<string>, s: string)
    requires ClosedUpTo(nodes, inside, [])
    requires s in inside
    requires forall x :: x in inside ==> !Qualifies(nodes, x)
    ensures !HasOrigin(nodes, s)
  {
    forall x | Reaches(nodes, s, x) ensures !Qualifies(nodes, x) {
      var p :| PathFromTo(nodes, p, s, x);
      ClosedContainsPath(nodes, inside, p);
    }
  }

  /** `a = b; b = a`: the two nodes depend on each other and neither has an origin. */
  lemma CycleHasNoOrigin()
    ensures var g := Assigned(Assigned(map[], "a", {"b"}, None, None), "b", {"a"}, None, None);
      g.Keys == {"a", "b"} && g["a"].assignedFrom == {"b"} && g["b"].assignedFrom == {"a"} &&
      !HasOrigin(g, "a") && !HasOrigin(g, "b")
  {
    var g := Assigned(Assigned(map[], "a", {"b"}, None, None), "b", {"a"}, None, None);
    assert g["a"].assignedFrom == {"b"} && g["b"].assignedFrom == {"a"};
    assert ClosedUpTo(g, {"a", "b"}, []);
    NoOriginInClosedRegion(g, {"a", "b"}, "a");
    NoOriginInClosedRegion(g, {"a", "b"}, "b");
  }

  /** `y_pred = model.predict(X); z = y_pred`: both resolve to `model`, `z` through `y_pred`. */
  lemma PredictCallIsOrigin()
    ensures var g := Assigned(map[], "y_pred", {"model", "X"}, Some("predict"), Some("model"));
      var h := Assigned(g, "z", {"y_pred"}, None, None);
      IsOrigin(g, "y_pred", "model") && IsOrigin(h, "z", "model") && !Qualifies(h, "z")
  {
    var g := Assigned(map[], "y_pred", {"model", "X"}, Some("predict"), Some("model"));
    var h := Assigned(g, "z", {"y_pred"}, None, None);
    assert "predict" in ModelOps;
    assert Qualifies(g, "y_pred") && Qualifies(h, "y_pred");
    assert PathFromTo(g, ["y_pred"], "y_pred", "y_pred");
    var p := ["z", "y_pred"];
    assert p[1..] == ["y_pred"];
    assert PathFromTo(h, p, "z", "y_pred");
  }

  /**
   * `o` is an answer a breadth-first search can give for `s`: the receiver of
   * a qualifying node reached by a path no longer than the path to any other
   * qualifying node.  Among several equally near nodes this admits every
   * one, although the search's two-tier queue order (dependencies with a
   * method call first) rules some of them out whatever the set order is.
   */
  ghost predicate IsNearestOrigin(nodes: Nodes, s: string, o: string) {
    exists x, p :: PathFromTo(nodes, p, s, x) && Qualifies(nodes, x) && nodes[x].parentObj == Some(o) &&
      NoCloserQualifier(nodes, s, |p|)
  }

  /** Every path from `s` to a qualifying node has at least `n` names. */
  ghost predicate NoCloserQualifier(nodes: Nodes, s: string, n: nat) {
    forall y, q :: PathFromTo(nodes, q, s, y) && Qualifies(nodes, y) ==> n <= |q|
  }

  /** A nearest origin is an origin. */
  lemma NearestIsOrigin(nodes: Nodes, s: string, o: string)
    requires IsNearestOrigin(nodes, s, o)
    ensures IsOrigin(nodes, s, o)
  {
    var x, p :| PathFromTo(nodes, p, s, x) && Qualifies(nodes, x) && nodes[x].parentObj == Some(o) &&
      NoCloserQualifier(nodes, s, |p|);
    assert Reaches(nodes, s, x);
  }

  /** A qualifying start node is its own nearest qualifying node. */
  lemma NearestOriginOfQualifying(nodes: Nodes, s: string, o: string)
    requires Qualifies(nodes, s)
    ensures IsNearestOrigin(nodes, s, o) <==> nodes[s].parentObj == Some(o)
  {
    assert PathFromTo(nodes, [s], s, s);
    if IsNearestOrigin(nodes, s, o) {
      var x, p :| PathFromTo(nodes, p, s, x) && Qualifies(nodes, x) && nodes[x].parentObj == Some(o) &&
        NoCloserQualifier(nodes, s, |p|);
      assert |p| <= 1;
    }
  }

  /**
   * `z = m2.predict(X); a = m1.predict(z); y = a`: both receivers are origins
   * of `y`, but the search answers `m1`, whose call is one step nearer.
   */
  lemma NearestOriginThroughChain(o: string)
    ensures var g := Assigned(Assigned(Assigned(map[], "z", {"m2", "X"}, Some("predict"), Some("m2")),
                                       "a", {"m1", "z"}, Some("predict"), Some("m1")),
                              "y", {"a"}, None, None);
      IsOrigin(g, "y", "m2") && IsOrigin(g, "y", "m1") && (IsNearestOrigin(g, "y", o) <==> o == "m1")
  {
    var g := Assigned(Assigned(Assigned(map[], "z", {"m2", "X"}, Some("predict"), Some("m2")),
                               "a", {"m1", "z"}, Some("predict"), Some("m1")),
                      "y", {"a"}, None, None);
    assert "predict" in ModelOps;
    assert g["y"].assignedFrom == {"a"} && g["a"].assignedFrom == {"m1", "z"};
    assert Qualifies(g, "a") && Qualifies(g, "z") && !Qualifies(g, "y");
    var p := ["y", "a"];
    assert p[1..] == ["a"];
    assert PathFromTo(g, p, "y", "a");
    var p2 := ["y", "a", "z"];
    assert p2[1..] == ["a", "z"] && p2[1..][1..] == ["z"];
    assert PathFromTo(g, p2, "y", "z");
    assert NoCloserQualifier(g, "y", 2);
    if IsNearestOrigin(g, "y", o) {
      var x, q :| PathFromTo(g, q, "y", x) && Qualifies(g, x) && g[x].parentObj == Some(o) &&
        NoCloserQualifier(g, "y", |q|);
      assert |q| <= 2;
      assert q[1] in g["y"].assignedFrom;
    }
  }

  /** A path without its last name is a path to the node whose dependency that name is. */
  lemma {:induction false} PathDropLast(nodes: Nodes, p: seq<string>)
    requires IsPath(nodes, p) && |p| > 1
    ensures IsPath(nodes, p[..|p| - 1])
    ensures p[|p| - 2] in nodes && p[|p| - 1] in nodes[p[|p| - 2]].assignedFrom
    decreases |p|
  {
    if |p| > 2 {
      PathDropLast(nodes, p[1..]);
      assert p[1..][..|p| - 2] == p[..|p| - 1][1..];
    }
  }

  /** The queue's witness paths never shrink along the queue and differ in length by at most one. */
  ghost predicate Levelled(paths: seq<seq<string>>) {
    (forall i, j :: 0 <= i <= j < |paths| ==> |paths[i]| <= |paths[j]|) &&
    (forall i :: 0 <= i < |paths| ==> |paths[i]| <= |paths[0]| + 1)
  }

  /** `lvl[v]` is no longer than any path from `s` to the visited name `v`. */
  ghost predicate Shortest(nodes: Nodes, s: string, lvl: map<string, nat>) {
    forall v, p :: v in lvl && PathFromTo(nodes, p, s, v) ==> lvl[v] <= |p|
  }

  /** Every unvisited dependency of a visited node waits in the queue, no further than one step beyond it. */
  ghost predicate Frontier(nodes: Nodes, queue: seq<string>, paths: seq<seq<string>>, lvl: map<string, nat>) {
    |paths| == |queue| &&
    forall v, w :: v in lvl && v in nodes && w in nodes[v].assignedFrom && w in nodes && w !in lvl ==>
      exists i :: 0 <= i < |queue| && queue[i] == w && |paths[i]| <= lvl[v] + 1
  }

  /**
   * What the breadth-first search of `get_origin_model` keeps true between
   * two steps: each queued name comes with a path from the start, queued
   * paths are in level order, visited names do not qualify and carry their
   * distance, and the queue holds every unvisited dependency of a visited node.
   */
  ghost predicate SearchInv(nodes: Nodes, s: string, visited: set<string>, queue: seq<string>,
                            paths: seq<seq<string>>, lvl: map<string, nat>) {
    visited <= nodes.Keys && lvl.Keys == visited && |paths| == |queue| &&
    (forall i :: 0 <= i < |queue| ==> PathFromTo(nodes, paths[i], s, queue[i])) &&
    Levelled(paths) &&
    (forall x :: x in visited ==> !Qualifies(nodes, x)) &&
    Shortest(nodes, s, lvl) &&
    Frontier(nodes, queue, paths, lvl) &&
    (s in nodes && s !in visited ==> |queue| > 0 && |paths[0]| <= 1)
  }

  /** No unvisited node is nearer to the start than the front of the queue. */
  lemma {:induction false} FrontierBound(nodes: Nodes, s: string, visited: set<string>, queue: seq<string>,
                                         paths: seq<seq<string>>, lvl: map<string, nat>, p: seq<string>, y: string)
    requires SearchInv(nodes, s, visited, queue, paths, lvl)
    requires PathFromTo(nodes, p, s, y) && y in nodes && y !in visited
    ensures |queue| > 0 && |paths[0]| <= |p|
    decreases |p|
  {
    if |p| > 1 {
      var p' := p[..|p| - 1];
      var u := p[|p| - 2];
      PathDropLast(nodes, p);
      assert PathFromTo(nodes, p', s, u);
      if u in visited {
        var i :| 0 <= i < |queue| && queue[i] == y && |paths[i]| <= lvl[u] + 1;
      } else {
        FrontierBound(nodes, s, visited, queue, paths, lvl, p', u);
      }
    }
  }

  /** A qualifying node at the front of the queue is a nearest qualifying node. */
  lemma FrontIsNearest(nodes: Nodes, s: string, visited: set<string>, queue: seq<string>,
                       paths: seq<seq<string>>, lvl: map<string, nat>)
    requires SearchInv(nodes, s, visited, queue, paths, lvl)
    requires |queue| > 0 && Qualifies(nodes, queue[0])
    ensures IsNearestOrigin(nodes, s, nodes[queue[0]].parentObj.value)
  {
    forall y, q | PathFromTo(nodes, q, s, y) && Qualifies(nodes, y)
      ensures |paths[0]| <= |q|
    {
      FrontierBound(nodes, s, visited, queue, paths, lvl, q, y);
    }
    assert PathFromTo(nodes, paths[0], s, queue[0]);
  }

  /** An exhausted search has visited the start and every node reachable from it. */
  lemma ExhaustedIsClosed(nodes: Nodes, s: string, visited: set<string>, paths: seq<seq<string>>, lvl: map<string, nat>)
    requires SearchInv(nodes, s, visited, [], paths, lvl)
    ensures ClosedUpTo(nodes, visited, [])
    ensures s in visited || s !in nodes
  {
  }

  /** Dropping a name already visited, or not a node, keeps the search invariant. */
  lemma SkipKeepsInv(nodes: Nodes, s: string, visited: set<string>, queue: seq<string>,
                     paths: seq<seq<string>>, lvl: map<string, nat>)
    requires SearchInv(nodes, s, visited, queue, paths, lvl)
    requires |queue| > 0 && (queue[0] in visited || queue[0] !in nodes)
    ensures SearchInv(nodes, s, visited, queue[1..], paths[1..], lvl)
  {
    var queue', paths' := queue[1..], paths[1..];
    forall v, w | v in lvl && v in nodes && w in nodes[v].assignedFrom && w in nodes && w !in lvl
      ensures exists i :: 0 <= i < |queue'| && queue'[i] == w && |paths'[i]| <= lvl[v] + 1
    {
      var i :| 0 <= i < |queue| && queue[i] == w && |paths[i]| <= lvl[v] + 1;
      assert queue'[i - 1] == w && paths'[i - 1] == paths[i];
    }
    assert PathFromTo(nodes, paths[0], s, queue[0]);
  }

  /** The queued paths for the dependencies `ws` of the node that `path` reaches. */
  ghost function Extended(path: seq<string>, ws: seq<string>): (r: seq<seq<string>>)
    ensures |r| == |ws|
    ensures forall k :: 0 <= k < |ws| ==> r[k] == path + [ws[k]]
  {
    seq(|ws|, k requires 0 <= k < |ws| => path + [ws[k]])
  }

  /** The queue after visiting its front: the rest, then the front's dependencies one step further. */
  lemma ExpandPaths(nodes: Nodes, s: string, visited: set<string>, queue: seq<string>,
                    paths: seq<seq<string>>, lvl: map<string, nat>, ws: seq<string>)
    requires SearchInv(nodes, s, visited, queue, paths, lvl)
    requires |queue| > 0 && queue[0] in nodes
    requires forall w :: w in ws ==> w in nodes[queue[0]].assignedFrom
    ensures forall i :: 0 <= i < |queue[1..] + ws| ==>
      PathFromTo(nodes, (paths[1..] + Extended(paths[0], ws))[i], s, (queue[1..] + ws)[i])
    ensures Levelled(paths[1..] + Extended(paths[0], ws))
  {
    var queue' := queue[1..] + ws;
    var paths' := paths[1..] + Extended(paths[0], ws);
    var level := |paths[0]|;
    forall i | 0 <= i < |queue'|
      ensures PathFromTo(nodes, paths'[i], s, queue'[i]) && level <= |paths'[i]| <= level + 1
    {
      if i < |queue| - 1 {
        assert queue'[i] == queue[i + 1] && paths'[i] == paths[i + 1];
      } else {
        var k := i - (|queue| - 1);
        assert queue'[i] == ws[k] && paths'[i] == paths[0] + [ws[k]];
        PathExtend(nodes, paths[0], ws[k]);
      }
    }
    forall i, j | 0 <= i <= j < |paths'| ensures |paths'[i]| <= |paths'[j]| {
      if j < |queue| - 1 {
        assert paths'[i] == paths[i + 1] && paths'[j] == paths[j + 1];
      }
    }
  }

  /** The front of the queue, once visited, keeps its path length as its distance. */
  lemma ExpandShortest(nodes: Nodes, s: string, visited: set<string>, queue: seq<string>,
                       paths: seq<seq<string>>, lvl: map<string, nat>)
    requires SearchInv(nodes, s, visited, queue, paths, lvl)
    requires |queue| > 0 && queue[0] !in visited && queue[0] in nodes
    ensures Shortest(nodes, s, lvl[queue[0] := |paths[0]|])
  {
    var c := queue[0];
    forall v, p | v in lvl[c := |paths[0]|] && PathFromTo(nodes, p, s, v)
      ensures lvl[c := |paths[0]|][v] <= |p|
    {
      if v == c {
        FrontierBound(nodes, s, visited, queue, paths, lvl, p, c);
      }
    }
  }

  /** After visiting the front, every unvisited dependency of a visited node is still queued close enough. */
  lemma ExpandFrontier(nodes: Nodes, s: string, visited: set<string>, queue: seq<string>,
                       paths: seq<seq<string>>, lvl: map<string, nat>, ws: seq<string>)
    requires SearchInv(nodes, s, visited, queue, paths, lvl)
    requires |queue| > 0 && queue[0] !in visited && queue[0] in nodes
    requires forall w :: w in nodes[queue[0]].assignedFrom ==> w in ws
    ensures Frontier(nodes, queue[1..] + ws, paths[1..] + Extended(paths[0], ws), lvl[queue[0] := |paths[0]|])
  {
    var c := queue[0];
    var queue' := queue[1..] + ws;
    var paths' := paths[1..] + Extended(paths[0], ws);
    var lvl' := lvl[c := |paths[0]|];
    forall v, w | v in lvl' && v in nodes && w in nodes[v].assignedFrom && w in nodes && w !in lvl'
      ensures exists i :: 0 <= i < |queue'| && queue'[i] == w && |paths'[i]| <= lvl'[v] + 1
    {
      if v == c {
        var k :| 0 <= k < |ws| && ws[k] == w;
        assert queue'[|queue| - 1 + k] == w && paths'[|queue| - 1 + k] == paths[0] + [w];
      } else {
        var i :| 0 <= i < |queue| && queue[i] == w && |paths[i]| <= lvl[v] + 1;
        assert queue'[i - 1] == w && paths'[i - 1] == paths[i];
      }
    }
  }

  /** Visiting a node that does not qualify and queueing all its dependencies keeps the search invariant. */
  lemma ExpandKeepsInv(nodes: Nodes, s: string, visited: set<string>, queue: seq<string>,
                       paths: seq<seq<string>>, lvl: map<string, nat>, ws: seq<string>)
    requires SearchInv(nodes, s, visited, queue, paths, lvl)
    requires |queue| > 0 && queue[0] !in visited && queue[0] in nodes && !Qualifies(nodes, queue[0])
    requires forall w :: w in nodes[queue[0]].assignedFrom <==> w in ws
    ensures SearchInv(nodes, s, visited + {queue[0]}, queue[1..] + ws,
                      paths[1..] + Extended(paths[0], ws), lvl[queue[0] := |paths[0]|])
  {
    ExpandPaths(nodes, s, visited, queue, paths, lvl, ws);
    ExpandShortest(nodes, s, visited, queue, paths, lvl);
    ExpandFrontier(nodes, s, visited, queue, paths, lvl, ws);
    assert PathFromTo(nodes, paths[0], s, queue[0]);
  }

  /** The graph object the builder fills in and the resolver queries. */
  class DependencyGraph {
    var nodes: Nodes

    constructor()
      ensures nodes == map[]
    {
      nodes := map[];
    }

    /** `add_assignment`: register one assignment to `target`. */
    method AddAssignment(target: string, deps: set<string>,
                         methodName: Option<string>, parentName: Option<string>)
      modifies this
      ensures nodes == Assigned(old(nodes), target, deps, methodName, parentName)
    {
      var node := if target in nodes then nodes[target] else EmptyNode(target);
      node := node.(assignedFrom := node.assignedFrom + deps);
      if Truthy(methodName) {
        node := node.(methodCall := methodName);
      }
      if Truthy(parentName) {
        node := node.(parentObj := parentName);
      }
      nodes := nodes[target := node];
    }

    /**
     * The dependencies of a node split into those that are nodes with a
     * truthy method call and the rest, each list in the set's iteration order
     * (left open here: any order is allowed).
     */
    method PartitionDeps(deps: set<string>) returns (withMethods: seq<string>, withoutMethods: seq<string>)
      ensures forall w :: w in deps <==> w in withMethods || w in withoutMethods
      ensures forall w :: w in withMethods ==> w in nodes && Truthy(nodes[w].methodCall)
      ensures forall w :: w in withoutMethods ==> !(w in nodes && Truthy(nodes[w].methodCall))
    {
      withMethods, withoutMethods := [], [];
      var rest := deps;
      while rest != {}
        invariant rest <= deps
        invariant forall w :: w in deps <==> w in rest || w in withMethods || w in withoutMethods
        invariant forall w :: w in withMethods ==> w in nodes && Truthy(nodes[w].methodCall)
        invariant forall w :: w in withoutMethods ==> !(w in nodes && Truthy(nodes[w].methodCall))
        decreases rest
      {
        var dep :| dep in rest;
        if dep in nodes && Truthy(nodes[dep].methodCall) {
          withMethods := withMethods + [dep];
        } else {
          withoutMethods := withoutMethods + [dep];
        }
        rest := rest - {dep};
      }
    }

    /**
     * `get_origin_model`: breadth-first search from `varName` along
     * `assignedFrom` edges, with a visited set, for the first node whose
     * method call is a model operation and whose receiver is set.  Because
     * the queue is first in, first out, that node is a nearest one.
     */
    method GetOriginModel(varName: string) returns (origin: Option<string>)
      ensures varName !in nodes ==> origin == None
      ensures Qualifies(nodes, varName) ==> origin == nodes[varName].parentObj
      ensures origin.Some? ==> origin.value != "" && IsNearestOrigin(nodes, varName, origin.value)
      ensures origin.Some? ==> IsOrigin(nodes, varName, origin.value)
      ensures origin.None? <==> !HasOrigin(nodes, varName)
    {
      var visited: set<string> := {};
      var queue: seq<string> := [varName];
      ghost var paths: seq<seq<string>> := [[varName]];
      ghost var lvl: map<string, nat> := map[];
      assert PathFromTo(nodes, [varName], varName, varName);
      while |queue| > 0
        invariant SearchInv(nodes, varName, visited, queue, paths, lvl)
        invariant Qualifies(nodes, varName) ==> queue == [varName] && visited == {}
        decreases nodes.Keys - visited, |queue|
      {
        var current := queue[0];
        if current in visited || current !in nodes {
          SkipKeepsInv(nodes, varName, visited, queue, paths, lvl);
          queue, paths := queue[1..], paths[1..];
          continue;
        }
        var node := nodes[current];
        if node.methodCall.Some? && node.methodCall.value in ModelOps {
          if Truthy(node.parentObj) {
            FrontIsNearest(nodes, varName, visited, queue, paths, lvl);
            NearestIsOrigin(nodes, varName, node.parentObj.value);
            return node.parentObj;
          }
        }
        var withMethods, withoutMethods := PartitionDeps(node.assignedFrom);
        ExpandKeepsInv(nodes, varName, visited, queue, paths, lvl, withMethods + withoutMethods);
        lvl := lvl[current := |paths[0]|];
        paths := paths[1..] + Extended(paths[0], withMethods + withoutMethods);
        visited := visited + {current};
        queue := queue[1..] + (withMethods + withoutMethods);
      }
      ExhaustedIsClosed(nodes, varName, visited, paths, lvl);
      forall x | Reaches(nodes, varName, x)
        ensures !Qualifies(nodes, x)
      {
        var p :| PathFromTo(nodes, p, varName, x);
        ClosedContainsPath(nodes, visited, p);
      }
      return None;
    }
  }
}
