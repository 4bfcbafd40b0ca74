/** Cycle detection of the pipeline backend: a depth-first search that keeps the
    nodes of the current recursion stack in `path` and the finished nodes in
    `visited`, and reports a cycle as soon as it meets a node already on `path`. */
module Cycles {

  /** The adjacency dict: node id to the list of its targets, duplicates kept. */
  type Graph = map<string, seq<string>>

  /** `graph.get(node, [])`: a node that is not a key has no out-edges. */
  function Succ(g: Graph, v: string): (r: seq<string>)
    ensures v !in g ==> r == []
    ensures v in g ==> r == g[v]
  {
    if v in g then g[v] else []
  }

  /** Every node that is a key or appears in some adjacency list. */
  ghost function Vertices(g: Graph): set<string> {
    g.Keys + (set k, w | k in g && w in g[k] :: w)
  }

  lemma SuccInVertices(g: Graph, v: string, w: string)
    requires w in Succ(g, v)
    ensures w in Vertices(g)
  {
    assert v in g;
    assert w in (set k, x | k in g && x in g[k] :: x);
  }

  /** A walk: each node is followed by one of its successors. */
  ghost predicate IsWalk(g: Graph, p: seq<string>) {
    forall i | 0 <= i < |p| - 1 :: p[i + 1] in Succ(g, p[i])
  }

  /** A walk of one or more edges that ends where it starts. */
  ghost predicate IsCycle(g: Graph, p: seq<string>) {
    |p| >= 2 && p[0] == p[|p| - 1] && IsWalk(g, p)
  }

  /** Some node reaches itself by one or more edges. */
  ghost predicate Cyclic(g: Graph) {
    exists p :: IsCycle(g, p)
  }

  /** The search's certificate for its finished nodes: `visited` is closed under successors
      and `rank` strictly decreases along every edge leaving a finished node. */
  ghost predicate Ranked(g: Graph, visited: set<string>, rank: map<string, nat>) {
    && rank.Keys == visited
    && forall v, w | v in visited && w in Succ(g, v) :: w in visited && rank[w] < rank[v]
  }

  lemma {:induction false} RankedWalkDescends(g: Graph, visited: set<string>, rank: map<string, nat>, p: seq<string>)
    requires Ranked(g, visited, rank) && IsWalk(g, p) && |p| > 0 && p[0] in visited
    ensures forall i | 0 <= i < |p| :: p[i] in visited && rank[p[i]] + i <= rank[p[0]]
  {
    if |p| > 1 {
      var q := p[..|p| - 1];
      assert IsWalk(g, q) by {
        forall i | 0 <= i < |q| - 1 ensures q[i + 1] in Succ(g, q[i]) {
          assert q[i] == p[i] && q[i + 1] == p[i + 1];
        }
      }
      RankedWalkDescends(g, visited, rank, q);
      assert p[|p| - 1] in Succ(g, p[|p| - 2]);
      assert forall i | 0 <= i < |q| :: p[i] == q[i];
    }
  }

  /** Every node in `visited` has no cycle reachable from it: a walk that starts at a finished
      node never repeats a node. */
  lemma VisitedReachesNoCycle(g: Graph, visited: set<string>, rank: map<string, nat>, p: seq<string>)
    requires Ranked(g, visited, rank) && IsWalk(g, p) && |p| > 0 && p[0] in visited
    ensures forall i, j | 0 <= i < j < |p| :: p[i] != p[j]
  {
    RankedWalkDescends(g, visited, rank, p);
    forall i, j | 0 <= i < j < |p| ensures p[i] != p[j] {
      var q := p[i..];
      assert IsWalk(g, q) by {
        forall k | 0 <= k < |q| - 1 ensures q[k + 1] in Succ(g, q[k]) {
          assert q[k] == p[i + k] && q[k + 1] == p[i + k + 1];
        }
      }
      RankedWalkDescends(g, visited, rank, q);
      assert q[j - i] == p[j];
    }
  }

  /** Once every key is finished, the graph has no cycle. */
  lemma AllKeysVisitedAcyclic(g: Graph, visited: set<string>, rank: map<string, nat>)
    requires Ranked(g, visited, rank) && g.Keys <= visited
    ensures !Cyclic(g)
  {
    if Cyclic(g) {
      var p :| IsCycle(g, p);
      assert p[1] in Succ(g, p[0]);
      VisitedReachesNoCycle(g, visited, rank, p);
      assert false;
    }
  }

  /** The set of nodes on a recursion stack. */
  ghost function Elems(stack: seq<string>): set<string> {
    if stack == [] then {} else Elems(stack[..|stack| - 1]) + {stack[|stack| - 1]}
  }

  lemma {:induction false} ElemsIndex(stack: seq<string>, x: string)
    requires x in Elems(stack)
    ensures x in stack
  {
    if x != stack[|stack| - 1] {
      ElemsIndex(stack[..|stack| - 1], x);
    }
  }

  /** Following an edge from the top of the recursion stack to a node already on it closes a cycle. */
  lemma ClosingEdgeCycle(g: Graph, stack: seq<string>, node: string)
    requires IsWalk(g, stack) && node in stack && node in Succ(g, stack[|stack| - 1])
    ensures Cyclic(g)
  {
    var i :| 0 <= i < |stack| && stack[i] == node;
    var cycle := stack[i..] + [node];
    forall k | 0 <= k < |cycle| - 1 ensures cycle[k + 1] in Succ(g, cycle[k]) {
      if k < |stack| - i - 1 {
        assert cycle[k] == stack[i + k] && cycle[k + 1] == stack[i + k + 1];
      }
    }
    assert IsCycle(g, cycle);
  }

  /** A node all of whose successors are finished can be finished itself, ranked above them all. */
  lemma FinishKeepsRanked(g: Graph, visited: set<string>, rank: map<string, nat>, clock: nat, node: string)
    requires Ranked(g, visited, rank) && forall v | v in visited :: rank[v] < clock
    requires node !in visited && forall w | w in Succ(g, node) :: w in visited
    ensures Ranked(g, visited + {node}, rank[node := clock])
    ensures forall v | v in visited + {node} :: rank[node := clock][v] < clock + 1
  {
  }

  /** The state of one has_cycle call: the graph and the two sets its inner dfs mutates. */
  class CycleSearch {
    const graph: Graph
    var path: set<string>
    var visited: set<string>
    ghost var rank: map<string, nat>
    ghost var clock: nat

    ghost predicate Valid()
      reads this
    {
      && path !! visited
      && Ranked(graph, visited, rank)
      && forall v | v in visited :: rank[v] < clock
    }

    constructor (g: Graph)
      ensures graph == g && path == {} && visited == {} && Valid()
    {
      graph := g;
      path, visited := {}, {};
      rank, clock := map[], 0;
    }

    /** dfs(node). `stack` is the ghost recursion stack: `path` is exactly its set of nodes, and
        `node` was reached from its top. */
    method Dfs(node: string, ghost stack: seq<string>) returns (found: bool)
      requires Valid()
      requires node in Vertices(graph)
      requires IsWalk(graph, stack) && path == Elems(stack)
      requires |stack| > 0 ==> node in Succ(graph, stack[|stack| - 1])
      modifies this
      decreases Vertices(graph) - path - visited
      ensures found ==> Cyclic(graph)
      ensures !found ==> Valid() && path == old(path) && old(visited) <= visited && node in visited
    {
      if node in path {
        ElemsIndex(stack, node);
        ClosingEdgeCycle(graph, stack, node);
        return true;
      }
      if node in visited {
        return false;
      }
      path := path + {node};
      ghost var below := stack + [node];
      assert below[..|stack|] == stack;
      var neighbors := Succ(graph, node);
      var k := 0;
      while k < |neighbors|
        invariant 0 <= k <= |neighbors|
        invariant Valid()
        invariant path == old(path) + {node}
        invariant old(visited) <= visited
        invariant forall j | 0 <= j < k :: neighbors[j] in visited
      {
        SuccInVertices(graph, node, neighbors[k]);
        assert Vertices(graph) - path - visited < old(Vertices(graph) - path - visited) by {
          assert node in old(Vertices(graph) - path - visited);
        }
        ghost var before := visited;
        var hit := Dfs(neighbors[k], below);
        if hit {
          return true;
        }
        forall j | 0 <= j <= k ensures neighbors[j] in visited {
          if j < k {
            assert neighbors[j] in before;
          }
        }
        k := k + 1;
      }
      FinishKeepsRanked(graph, visited, rank, clock, node);
      var grown := visited + {node};
      assert old(visited) <= grown && node in grown;
      path, visited, rank, clock := path - {node}, grown, rank[node := clock], clock + 1;
      found := false;
    }
  }

  /** has_cycle(graph): run dfs from every key not yet finished. */
  method HasCycle(graph: Graph) returns (r: bool)
    ensures r <==> Cyclic(graph)
  {
    var search := new CycleSearch(graph);
    var remaining := graph.Keys;
    while remaining != {}
      invariant remaining <= graph.Keys
      invariant search.graph == graph && search.Valid() && search.path == {}
      invariant forall k | k in graph && k !in remaining :: k in search.visited
      decreases remaining
    {
      var node :| node in remaining;
      remaining := remaining - {node};
      if node !in search.visited {
        var found := search.Dfs(node, []);
        if found {
          return true;
        }
      }
    }
    AllKeysVisitedAcyclic(graph, search.visited, search.rank);
    return false;
  }

  /** The empty graph has no cycle. */
  lemma EmptyGraphAcyclic()
    ensures !Cyclic(map[])
  {
    forall p ensures !IsCycle(map[], p) {
      if |p| >= 2 {
        assert p[1] !in Succ(map[], p[0]);
      }
    }
  }

  /** A node listed among its own neighbours is a cycle. */
  lemma SelfLoopCyclic(g: Graph, v: string)
    requires v in g && v in g[v]
    ensures Cyclic(g)
  {
    assert IsCycle(g, [v, v]);
  }

  /** A node that is not a key has no out-edges, so no cycle passes through it. */
  lemma NonKeyOnNoCycle(g: Graph, p: seq<string>, i: nat)
    requires IsCycle(g, p) && i < |p|
    ensures p[i] in g
  {
    if i < |p| - 1 {
      assert p[i + 1] in Succ(g, p[i]);
    } else {
      assert p[1] in Succ(g, p[0]);
    }
  }
}
