/** The pipeline-parsing endpoint of the backend: it turns the submitted
    `{nodes, edges}` lists into an adjacency dict, runs the cycle check and reports
    the two counts and whether the graph is a DAG; any exception becomes an HTTP 500. */
module Pipeline {
  import opened Wrappers
  import opened Cycles

  /** One JSON object of the payload, as the `Dict[str, str]` the endpoint indexes into. */
  type JsonObject = map<string, string>

  /** The decoded query parameter: `{nodes: [...], edges: [...]}`. */
  datatype Payload = Payload(nodes: seq<JsonObject>, edges: seq<JsonObject>)

  /** What the handler's `except` turns into an HTTP 500: undecodable JSON (or missing top-level
      lists), a missing key in a node or edge object, or an edge whose source was not declared. */
  datatype PipelineError = MalformedPayload | MissingKey(key: string) | UnknownSource(source: string)

  datatype PipelineSummary = PipelineSummary(numNodes: nat, numEdges: nat, isDag: bool)

  /** The route's HTTP reply: a status and a body that decodes to a summary or does not. */
  datatype Reply = Reply(status: nat, body: Result<PipelineSummary, string>)

  /** The node loop: `graph[node['id']] = []` for each node in turn. */
  function DeclareNodes(nodes: seq<JsonObject>): Result<Graph, PipelineError> {
    if nodes == [] then Success(map[])
    else
      match DeclareNodes(nodes[..|nodes| - 1])
      case Failure(e) => Failure(e)
      case Success(g) =>
        var n := nodes[|nodes| - 1];
        if "id" !in n then Failure(MissingKey("id")) else Success(g[n["id"] := []])
  }

  /** The edge loop: `graph[edge['source']].append(edge['target'])` for each edge in turn. */
  function AppendEdges(g: Graph, edges: seq<JsonObject>): Result<Graph, PipelineError> {
    if edges == [] then Success(g)
    else
      match AppendEdges(g, edges[..|edges| - 1])
      case Failure(e) => Failure(e)
      case Success(h) =>
        var e := edges[|edges| - 1];
        if "source" !in e then Failure(MissingKey("source"))
        else if "target" !in e then Failure(MissingKey("target"))
        else if e["source"] !in h then Failure(UnknownSource(e["source"]))
        else Success(h[e["source"] := h[e["source"]] + [e["target"]]])
  }

  function BuildGraph(p: Payload): Result<Graph, PipelineError> {
    match DeclareNodes(p.nodes)
    case Failure(e) => Failure(e)
    case Success(g) => AppendEdges(g, p.edges)
  }

  /** What parse_pipeline answers for a payload (None: the JSON did not decode). */
  ghost function PipelineResult(data: Option<Payload>): Result<PipelineSummary, PipelineError> {
    match data
    case None => Failure(MalformedPayload)
    case Some(p) =>
      match BuildGraph(p)
      case Failure(e) => Failure(e)
      case Success(g) => Success(PipelineSummary(|p.nodes|, |p.edges|, !Cyclic(g)))
  }

  /** The targets, in order and with repetitions, of the edges leaving `k`. */
  function TargetsFrom(edges: seq<JsonObject>, k: string): seq<string> {
    if edges == [] then []
    else
      var e := edges[|edges| - 1];
      TargetsFrom(edges[..|edges| - 1], k)
        + (if "source" in e && "target" in e && e["source"] == k then [e["target"]] else [])
  }

  /** An edge the edge loop accepts once the nodes `declared` are keys. */
  predicate EdgeAccepted(e: JsonObject, declared: set<string>) {
    "source" in e && "target" in e && e["source"] in declared
  }

  /** The node loop succeeds exactly when every node has an id; the keys are then the declared
      ids, each with an empty list. */
  lemma {:induction false} DeclareNodesMeaning(nodes: seq<JsonObject>)
    ensures DeclareNodes(nodes).Success? <==> forall i | 0 <= i < |nodes| :: "id" in nodes[i]
    ensures DeclareNodes(nodes).Success? ==>
      var g := DeclareNodes(nodes).value;
      && (forall k :: k in g <==> exists i | 0 <= i < |nodes| :: "id" in nodes[i] && nodes[i]["id"] == k)
      && (forall k | k in g :: g[k] == [])
  {
    if nodes != [] {
      var front := nodes[..|nodes| - 1];
      DeclareNodesMeaning(front);
      assert forall i | 0 <= i < |front| :: front[i] == nodes[i];
      if DeclareNodes(nodes).Success? {
        var g := DeclareNodes(nodes).value;
        forall k | k in g ensures exists i | 0 <= i < |nodes| :: "id" in nodes[i] && nodes[i]["id"] == k {
          if k != nodes[|nodes| - 1]["id"] {
            var i :| 0 <= i < |front| && "id" in front[i] && front[i]["id"] == k;
            assert nodes[i] == front[i];
          }
        }
      }
    }
  }

  /** The edge loop succeeds exactly when every edge has both keys and a declared source; whether
      the target is declared is never looked at. */
  lemma {:induction false} AppendEdgesSucceeds(g: Graph, edges: seq<JsonObject>)
    ensures AppendEdges(g, edges).Success? <==> forall i | 0 <= i < |edges| :: EdgeAccepted(edges[i], g.Keys)
    ensures AppendEdges(g, edges).Success? ==> AppendEdges(g, edges).value.Keys == g.Keys
  {
    if edges != [] {
      var front := edges[..|edges| - 1];
      AppendEdgesSucceeds(g, front);
      assert forall i | 0 <= i < |front| :: front[i] == edges[i];
    }
  }

  /** On success the edge loop appends to each key's list the targets of the edges leaving it, in
      order, duplicates included, and adds no key. */
  lemma {:induction false} AppendEdgesMeaning(g: Graph, edges: seq<JsonObject>)
    ensures AppendEdges(g, edges).Success? <==> forall i | 0 <= i < |edges| :: EdgeAccepted(edges[i], g.Keys)
    ensures AppendEdges(g, edges).Success? ==>
      var h := AppendEdges(g, edges).value;
      h.Keys == g.Keys && forall k | k in g :: h[k] == g[k] + TargetsFrom(edges, k)
  {
    AppendEdgesSucceeds(g, edges);
    if edges != [] && AppendEdges(g, edges).Success? {
      var front := edges[..|edges| - 1];
      AppendEdgesMeaning(g, front);
      var h := AppendEdges(g, front).value;
      var e := edges[|edges| - 1];
      var h' := AppendEdges(g, edges).value;
      assert h' == h[e["source"] := h[e["source"]] + [e["target"]]];
      forall k | k in g ensures h'[k] == g[k] + TargetsFrom(edges, k) {
        if k == e["source"] {
          assert h'[k] == h[k] + [e["target"]];
        }
      }
    }
  }

  /** The first node without an id decides the outcome: the loop stops there. */
  lemma {:induction false} DeclareNodesStops(nodes: seq<JsonObject>, i: nat)
    requires i <= |nodes| && DeclareNodes(nodes[..i]).Failure?
    ensures DeclareNodes(nodes) == DeclareNodes(nodes[..i])
    decreases |nodes| - i
  {
    if i < |nodes| {
      assert nodes[..i + 1][..i] == nodes[..i];
      DeclareNodesStops(nodes, i + 1);
    } else {
      assert nodes[..i] == nodes;
    }
  }

  /** The first rejected edge decides the outcome: the loop stops there. */
  lemma {:induction false} AppendEdgesStops(g: Graph, edges: seq<JsonObject>, j: nat)
    requires j <= |edges| && AppendEdges(g, edges[..j]).Failure?
    ensures AppendEdges(g, edges) == AppendEdges(g, edges[..j])
    decreases |edges| - j
  {
    if j < |edges| {
      assert edges[..j + 1][..j] == edges[..j];
      AppendEdgesStops(g, edges, j + 1);
    } else {
      assert edges[..j] == edges;
    }
  }

  /** parse_pipeline(pipeline_data): build the dict with two loops, then report the counts of the
      two lists (duplicates counted) and whether has_cycle found no cycle. */
  method ParsePipeline(data: Option<Payload>) returns (r: Result<PipelineSummary, PipelineError>)
    ensures r == PipelineResult(data)
    ensures r.Success? ==> r.value.numNodes == |data.value.nodes| && r.value.numEdges == |data.value.edges|
  {
    if data.None? {
      return Failure(MalformedPayload);
    }
    var nodes, edges := data.value.nodes, data.value.edges;
    var graph: Graph := map[];
    var i := 0;
    while i < |nodes|
      invariant 0 <= i <= |nodes|
      invariant DeclareNodes(nodes[..i]) == Success(graph)
    {
      assert nodes[..i + 1][..i] == nodes[..i];
      if "id" !in nodes[i] {
        DeclareNodesStops(nodes, i + 1);
        return Failure(MissingKey("id"));
      }
      graph := graph[nodes[i]["id"] := []];
      i := i + 1;
    }
    assert nodes[..i] == nodes;
    ghost var declared := graph;
    var j := 0;
    while j < |edges|
      invariant 0 <= j <= |edges|
      invariant AppendEdges(declared, edges[..j]) == Success(graph)
    {
      assert edges[..j + 1][..j] == edges[..j];
      var edge := edges[j];
      if "source" !in edge {
        AppendEdgesStops(declared, edges, j + 1);
        return Failure(MissingKey("source"));
      }
      var source := edge["source"];
      if "target" !in edge {
        AppendEdgesStops(declared, edges, j + 1);
        return Failure(MissingKey("target"));
      }
      var target := edge["target"];
      if source !in graph {
        AppendEdgesStops(declared, edges, j + 1);
        return Failure(UnknownSource(source));
      }
      graph := graph[source := graph[source] + [target]];
      j := j + 1;
    }
    assert edges[..j] == edges;
    var cyclic := HasCycle(graph);
    r := Success(PipelineSummary(|nodes|, |edges|, !cyclic));
  }

  /** The route's reply: the summary with status 200, or status 500 carrying the error text. */
  function Serve(r: Result<PipelineSummary, PipelineError>): (reply: Reply)
    ensures r.Success? <==> reply.status == 200
    ensures r.Failure? <==> reply.status == 500
    ensures r.Success? ==> reply.body == Success(r.value)
  {
    match r
    case Success(s) => Reply(200, Success(s))
    case Failure(_) => Reply(500, Failure("detail"))
  }
}
