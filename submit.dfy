/** The submit button: project the store's nodes and edges to the `{nodes, edges}` payload,
    send it to the parse endpoint, and turn the reply into the text of one alert. */
module Submit {
  import opened Wrappers
  import opened Text
  import opened GraphStore
  import opened Cycles
  import opened Pipeline

  /** The reply as the frontend sees it: `fetch` rejected, or the server answered. */
  datatype HttpReply = NetworkFailure(reason: string) | Answered(reply: Reply)

  /** `{id: node.id}`: every other property of a node is dropped. */
  function NodeObject(n: Node): (o: JsonObject)
    ensures o.Keys == {"id"} && o["id"] == n.id
  {
    map["id" := n.id]
  }

  /** `{source, target}`: ids and handles of an edge are dropped. */
  function EdgeObject(e: Edge): (o: JsonObject)
    ensures o.Keys == {"source", "target"} && o["source"] == e.source && o["target"] == e.target
  {
    map["source" := e.source, "target" := e.target]
  }

  function NodeObjects(nodes: seq<Node>): seq<JsonObject> {
    seq(|nodes|, i requires 0 <= i < |nodes| => NodeObject(nodes[i]))
  }

  function EdgeObjects(edges: seq<Edge>): seq<JsonObject> {
    seq(|edges|, i requires 0 <= i < |edges| => EdgeObject(edges[i]))
  }

  /** The `pipelineData` object, one entry per node and per edge, in store order. */
  function PipelinePayload(nodes: seq<Node>, edges: seq<Edge>): (p: Payload)
    ensures |p.nodes| == |nodes| && |p.edges| == |edges|
    ensures forall i | 0 <= i < |nodes| :: p.nodes[i].Keys == {"id"} && p.nodes[i]["id"] == nodes[i].id
    ensures forall i | 0 <= i < |edges| ::
      && p.edges[i].Keys == {"source", "target"}
      && p.edges[i]["source"] == edges[i].source && p.edges[i]["target"] == edges[i].target
  {
    Payload(NodeObjects(nodes), EdgeObjects(edges))
  }

  const Header: string := "Pipeline Analysis Results:" + "\n\n" + "Number of Nodes: "
  const EdgesLabel: string := "\nNumber of Edges: "
  const DagLabel: string := "\nIs a DAG (Directed Acyclic Graph): "
  const CycleWarning: string := "Warning: Your pipeline contains cycles!"
  const ValidNote: string := "Pipeline structure is valid!"
  const ErrorPrefix: string := "Error submitting pipeline: "

  function Closing(isDag: bool): string {
    if !isDag then CycleWarning else ValidNote
  }

  function DagLine(isDag: bool): string {
    DagLabel + ((if isDag then "Yes" else "No") + ("\n\n" + Closing(isDag)))
  }

  function EdgesLine(s: PipelineSummary): string {
    EdgesLabel + (NatToString(s.numEdges) + DagLine(s.isDag))
  }

  /** The success alert: both counts in decimal, Yes/No, and a closing line that warns exactly
      when the pipeline is not a DAG. */
  function ResultMessage(s: PipelineSummary): (m: string)
    ensures StartsWith(m, Header)
    ensures EndsWith(m, CycleWarning) <==> !s.isDag
    ensures EndsWith(m, ValidNote) <==> s.isDag
  {
    var rest := NatToString(s.numNodes) + EdgesLine(s);
    ConcatStartsWith(Header, rest);
    ClosingEnds(Header + rest, s);
    Header + rest
  }

  lemma DagLineEnds(isDag: bool)
    ensures EndsWith(DagLine(isDag), Closing(isDag))
  {
    var tail := "\n\n" + Closing(isDag);
    var yn := if isDag then "Yes" else "No";
    ConcatEndsWith("\n\n", Closing(isDag));
    ConcatEndsWith(yn, tail);
    EndsWithTrans(yn + tail, tail, Closing(isDag));
    ConcatEndsWith(DagLabel, yn + tail);
    EndsWithTrans(DagLine(isDag), yn + tail, Closing(isDag));
  }

  lemma MessageEnds(m: string, s: PipelineSummary)
    requires m == Header + (NatToString(s.numNodes) + EdgesLine(s))
    ensures EndsWith(m, Closing(s.isDag))
  {
    DagLineEnds(s.isDag);
    var e := NatToString(s.numEdges) + DagLine(s.isDag);
    ConcatEndsWith(NatToString(s.numEdges), DagLine(s.isDag));
    ConcatEndsWith(EdgesLabel, e);
    EndsWithTrans(EdgesLine(s), e, DagLine(s.isDag));
    EndsWithTrans(EdgesLine(s), DagLine(s.isDag), Closing(s.isDag));
    var n := NatToString(s.numNodes) + EdgesLine(s);
    ConcatEndsWith(NatToString(s.numNodes), EdgesLine(s));
    ConcatEndsWith(Header, n);
    EndsWithTrans(m, n, EdgesLine(s));
    EndsWithTrans(m, EdgesLine(s), Closing(s.isDag));
  }

  /** The two closing lines differ in their next-to-last character, so a text ends with at most one. */
  lemma ClosingEnds(m: string, s: PipelineSummary)
    requires m == Header + (NatToString(s.numNodes) + EdgesLine(s))
    ensures EndsWith(m, CycleWarning) <==> !s.isDag
    ensures EndsWith(m, ValidNote) <==> s.isDag
  {
    MessageEnds(m, s);
    assert CycleWarning[|CycleWarning| - 2] == 's';
    assert ValidNote[|ValidNote| - 2] == 'd';
    assert EndsWith(m, CycleWarning) ==> m[|m| - 2] == 's';
    assert EndsWith(m, ValidNote) ==> m[|m| - 2] == 'd';
  }

  /** Read the answer line: the DAG label, then "Yes" or "No". */
  function ReadAnswer(r: string): Option<bool> {
    match AfterPrefix(r, DagLabel)
    case None => None
    case Some(rest) =>
      if StartsWith(rest, "Yes") then Some(true)
      else if StartsWith(rest, "No") then Some(false)
      else None
  }

  /** Read the edge line and the answer line: the edge label, a number, then the answer. */
  function ReadEdgesAndAnswer(r: string): Option<(nat, bool)> {
    match AfterPrefix(r, EdgesLabel)
    case None => None
    case Some(rest) =>
      match ReadNat(rest)
      case None => None
      case Some((e, tail)) =>
        match ReadAnswer(tail)
        case None => None
        case Some(isDag) => Some((e, isDag))
  }

  /** Read an analysis alert back: the number after the node label, the number after the edge
      label, and the Yes/No answer after the DAG label. */
  function Reported(m: string): Option<PipelineSummary> {
    match AfterPrefix(m, Header)
    case None => None
    case Some(rest) =>
      match ReadNat(rest)
      case None => None
      case Some((n, tail)) =>
        match ReadEdgesAndAnswer(tail)
        case None => None
        case Some((e, isDag)) => Some(PipelineSummary(n, e, isDag))
  }

  lemma ReadAnswerOfDagLine(isDag: bool)
    ensures ReadAnswer(DagLine(isDag)) == Some(isDag)
  {
    var yn := if isDag then "Yes" else "No";
    var rest := yn + ("\n\n" + Closing(isDag));
    ConcatStartsWith(DagLabel, rest);
    assert AfterPrefix(DagLine(isDag), DagLabel) == Some(rest);
    ConcatStartsWith(yn, "\n\n" + Closing(isDag));
    assert rest[0] == (if isDag then 'Y' else 'N');
  }

  lemma ReadEdgesOfEdgesLine(s: PipelineSummary)
    ensures ReadEdgesAndAnswer(EdgesLine(s)) == Some((s.numEdges, s.isDag))
  {
    var tail := DagLine(s.isDag);
    var rest := NatToString(s.numEdges) + tail;
    ConcatStartsWith(EdgesLabel, rest);
    assert AfterPrefix(EdgesLine(s), EdgesLabel) == Some(rest);
    assert DagLabel[0] == '\n';
    ConcatStartsWith(DagLabel, (if s.isDag then "Yes" else "No") + ("\n\n" + Closing(s.isDag)));
    assert tail[0] == '\n';
    ReadNatOfNatToString(s.numEdges, tail);
    ReadAnswerOfDagLine(s.isDag);
  }

  /** The alert shows the node count under the node label, the edge count under the edge label,
      and "Yes" exactly for a DAG: reading it back gives the summary it was made from. */
  lemma ReportedResultMessage(s: PipelineSummary)
    ensures Reported(ResultMessage(s)) == Some(s)
  {
    var tail := EdgesLine(s);
    var rest := NatToString(s.numNodes) + tail;
    ConcatStartsWith(Header, rest);
    assert AfterPrefix(ResultMessage(s), Header) == Some(rest);
    assert EdgesLabel[0] == '\n';
    ConcatStartsWith(EdgesLabel, NatToString(s.numEdges) + DagLine(s.isDag));
    assert tail[0] == '\n';
    ReadNatOfNatToString(s.numNodes, tail);
    ReadEdgesOfEdgesLine(s);
  }

  /** The alert text determines the summary it reports: different summaries never show the same
      message. */
  lemma ResultMessageInjective(s1: PipelineSummary, s2: PipelineSummary)
    requires ResultMessage(s1) == ResultMessage(s2)
    ensures s1 == s2
  {
    ReportedResultMessage(s1);
    ReportedResultMessage(s2);
  }

  /** A reply handleSubmit shows as an analysis: answered with a 2xx status and a body that decodes. */
  predicate Analysed(reply: HttpReply) {
    reply.Answered? && 200 <= reply.reply.status <= 299 && reply.reply.body.Success?
  }

  /** The text of the one alert handleSubmit shows for a reply: the analysis for a 2xx reply whose
      body decodes, and otherwise the error prefix followed by the thrown error's message. */
  function SubmitAlert(reply: HttpReply): string {
    match reply
    case NetworkFailure(reason) => ErrorPrefix + reason
    case Answered(Reply(status, body)) =>
      if !(200 <= status <= 299) then ErrorPrefix + "HTTP error! status: " + NatToString(status)
      else
        match body
        case Failure(reason) => ErrorPrefix + reason
        case Success(s) => ResultMessage(s)
  }

  /** The alert reports an error exactly when the request failed, was answered with a non-2xx
      status, or its body did not decode; otherwise it shows the analysis of the body. */
  lemma SubmitAlertKinds(reply: HttpReply)
    ensures StartsWith(SubmitAlert(reply), ErrorPrefix) <==> !Analysed(reply)
    ensures Analysed(reply) ==> SubmitAlert(reply) == ResultMessage(reply.reply.body.value)
  {
    var a := SubmitAlert(reply);
    if Analysed(reply) {
      assert Header[0] == 'P' && ErrorPrefix[0] == 'E';
      assert a[0] == Header[0];
    } else if reply.NetworkFailure? {
      ConcatStartsWith(ErrorPrefix, reply.reason);
    } else if !(200 <= reply.reply.status <= 299) {
      ConcatStartsWith(ErrorPrefix, "HTTP error! status: " + NatToString(reply.reply.status));
      assert a == ErrorPrefix + ("HTTP error! status: " + NatToString(reply.reply.status));
    } else {
      ConcatStartsWith(ErrorPrefix, reply.reply.body.error);
    }
  }

  /** The ids of the store's nodes. */
  function NodeIds(nodes: seq<Node>): set<string> {
    set i | 0 <= i < |nodes| :: nodes[i].id
  }

  /** The targets, in store order and with repetitions, of the edges whose source is `k`. */
  function TargetsOf(edges: seq<Edge>, k: string): seq<string> {
    if edges == [] then []
    else
      var e := edges[|edges| - 1];
      TargetsOf(edges[..|edges| - 1], k) + (if e.source == k then [e.target] else [])
  }

  /** The graph the backend analyses, read off the store directly: one key per node id, listing
      the targets of the edges that leave it. */
  function StoreGraph(nodes: seq<Node>, edges: seq<Edge>): Graph {
    map k | k in NodeIds(nodes) :: TargetsOf(edges, k)
  }

  lemma {:induction false} TargetsFromObjects(edges: seq<Edge>, k: string)
    ensures TargetsFrom(EdgeObjects(edges), k) == TargetsOf(edges, k)
  {
    if edges != [] {
      var front := edges[..|edges| - 1];
      assert EdgeObjects(edges)[..|edges| - 1] == EdgeObjects(front);
      TargetsFromObjects(front, k);
    }
  }

  /** Every node object has an id, so the node loop succeeds and declares exactly the store's ids. */
  lemma PayloadDeclares(nodes: seq<Node>)
    ensures DeclareNodes(NodeObjects(nodes)).Success?
    ensures DeclareNodes(NodeObjects(nodes)).value.Keys == NodeIds(nodes)
    ensures forall k | k in DeclareNodes(NodeObjects(nodes)).value :: DeclareNodes(NodeObjects(nodes)).value[k] == []
  {
    var objs := NodeObjects(nodes);
    DeclareNodesMeaning(objs);
    var g := DeclareNodes(objs).value;
    forall k ensures k in g <==> k in NodeIds(nodes) {
      if k in NodeIds(nodes) {
        var i :| 0 <= i < |nodes| && nodes[i].id == k;
        assert "id" in objs[i] && objs[i]["id"] == k;
      }
    }
  }

  /** Every edge object has both keys, so an edge is accepted exactly when its source is declared. */
  lemma PayloadAccepted(edges: seq<Edge>, declared: set<string>)
    ensures (forall i | 0 <= i < |edges| :: EdgeAccepted(EdgeObjects(edges)[i], declared))
      <==> forall i | 0 <= i < |edges| :: edges[i].source in declared
  {
    assert forall i | 0 <= i < |edges| :: EdgeAccepted(EdgeObjects(edges)[i], declared) <==> edges[i].source in declared;
  }

  /** What the backend makes of the submitted payload: when every edge leaves a node of the store,
      the graph it analyses is the store's own graph; otherwise the edge loop rejects the payload. */
  lemma PayloadGraph(nodes: seq<Node>, edges: seq<Edge>)
    ensures var p := PipelinePayload(nodes, edges);
      BuildGraph(p).Success? <==> forall i | 0 <= i < |edges| :: edges[i].source in NodeIds(nodes)
    ensures var p := PipelinePayload(nodes, edges);
      BuildGraph(p).Success? ==> BuildGraph(p).value == StoreGraph(nodes, edges)
  {
    PayloadDeclares(nodes);
    var g := DeclareNodes(NodeObjects(nodes)).value;
    AppendEdgesMeaning(g, EdgeObjects(edges));
    PayloadAccepted(edges, g.Keys);
    var r := AppendEdges(g, EdgeObjects(edges));
    if r.Success? {
      forall k | k in r.value ensures r.value[k] == TargetsOf(edges, k) {
        TargetsFromObjects(edges, k);
      }
      assert r.value == StoreGraph(nodes, edges);
    }
  }

  /** Submitting against the backend: the alert reports the store's node and edge counts and
      whether the store's graph is free of cycles, unless some edge leaves a non-node, in which
      case it shows the HTTP 500 error. */
  lemma SubmitAgainstBackend(nodes: seq<Node>, edges: seq<Edge>)
    ensures var alert := SubmitAlert(Answered(Serve(PipelineResult(Some(PipelinePayload(nodes, edges))))));
      (forall i | 0 <= i < |edges| :: edges[i].source in NodeIds(nodes)) ==>
        alert == ResultMessage(PipelineSummary(|nodes|, |edges|, !Cyclic(StoreGraph(nodes, edges))))
    ensures var alert := SubmitAlert(Answered(Serve(PipelineResult(Some(PipelinePayload(nodes, edges))))));
      !(forall i | 0 <= i < |edges| :: edges[i].source in NodeIds(nodes)) ==>
        alert == ErrorPrefix + "HTTP error! status: " + NatToString(500)
  {
    PayloadGraph(nodes, edges);
  }

  /** The button's state. */
  class SubmitButton {
    var isLoading: bool

    constructor ()
      ensures !isLoading
    {
      isLoading := false;
    }

    /** handleSubmit: send the payload through `transport` (URL encoding, fetch and the server) and
        return the alert text; the loading flag is cleared whatever happened. */
    method HandleSubmit(nodes: seq<Node>, edges: seq<Edge>, transport: Payload -> HttpReply) returns (alert: string)
      modifies this
      ensures alert == SubmitAlert(transport(PipelinePayload(nodes, edges)))
      ensures !isLoading
    {
      isLoading := true;
      var reply := transport(PipelinePayload(nodes, edges));
      alert := SubmitAlert(reply);
      isLoading := false;
    }
  }
}
