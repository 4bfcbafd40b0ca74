/** The graph store of the editor (a zustand store): the node list, the opaque edge
    list, the registry of user-authored custom node types and the per-type id
    counters, with the operations that replace them copy-on-write. */
module GraphStore {
  import opened Wrappers
  import opened Text

  /** A connection point of a custom type: `{id, label}` (`label` is a Dafny keyword, hence `caption`). */
  datatype Port = Port(id: string, caption: string)

  datatype SelectOption = SelectOption(value: string, caption: string)

  /** A field descriptor `{id, type, label, options?}`; `options` is present only for `select`. */
  datatype FieldDesc = FieldDesc(id: string, fieldType: string, caption: string, options: Option<seq<SelectOption>>)

  /** A custom node type as it is registered or carried by a drag: the lists may be missing. */
  datatype CustomConfig = CustomConfig(
    nodeType: string,
    backgroundColor: string,
    borderColor: string,
    inputs: Option<seq<Port>>,
    outputs: Option<seq<Port>>,
    fields: Option<seq<FieldDesc>>)

  /** The schema keys a custom instance's data carries, with missing lists replaced by `[]`. */
  datatype Schema = Schema(
    backgroundColor: string,
    borderColor: string,
    inputs: seq<Port>,
    outputs: seq<Port>,
    fields: seq<FieldDesc>)

  /** A node's `data` object. Built-in nodes carry only `{id, type, nodeType}` (no schema,
      no `fieldValues`); custom nodes carry the schema keys and `fieldValues`. */
  datatype NodeData = NodeData(
    id: string,
    typeTag: string,
    nodeType: string,
    schema: Option<Schema>,
    fieldValues: Option<map<string, string>>)

  /** A node of the flow; the position is not modelled. */
  datatype Node = Node(id: string, typeTag: string, data: NodeData)

  /** An edge of the flow; only the foreign flow library creates or removes edges. */
  datatype Edge = Edge(id: string, source: string, target: string, sourceHandle: string, targetHandle: string)

  /** The id `${type}-${n}` that getNodeID hands out for the n-th node of a type. */
  function IdOf(t: string, n: nat): string {
    t + "-" + NatToString(n)
  }

  /** An id determines both the type and the counter value it was made from: the text after
      the last `-` is all digits, so it cannot reach into the type name. */
  lemma IdOfInjective(t1: string, n1: nat, t2: string, n2: nat)
    requires IdOf(t1, n1) == IdOf(t2, n2)
    ensures t1 == t2 && n1 == n2
  {
    var d1, d2 := NatToString(n1), NatToString(n2);
    var s := IdOf(t1, n1);
    assert s == t1 + "-" + d1 == t2 + "-" + d2;
    var L := |s|;
    var k := if |d1| < |d2| then |d1| else |d2|;
    // Counting back from the end, the separator sits right before the digits.
    assert s[L - 1 - k] == '-' <==> k == |d1|;
    assert s[L - 1 - k] == '-' <==> k == |d2|;
    assert d1 == s[L - |d1|..] && d2 == s[L - |d2|..];
    assert t1 == s[..|t1|] && t2 == s[..|t2|];
    NatToStringInjective(n1, n2);
  }

  /** `nodeIDs[type]`, with an absent counter read as 0. */
  function Counter(nodeIDs: map<string, nat>, t: string): nat {
    if t in nodeIDs then nodeIDs[t] else 0
  }

  /** `node.data.fieldValues || {}`. */
  function FieldValuesOf(d: NodeData): map<string, string> {
    d.fieldValues.GetOr(map[])
  }

  /** The replacement node updateNodeField builds for a node whose id matches. */
  function SetFieldValue(n: Node, fieldName: string, value: string): (r: Node)
    ensures r.id == n.id && r.typeTag == n.typeTag
    ensures r.data.(fieldValues := n.data.fieldValues) == n.data
    ensures r.data.fieldValues.Some?
    ensures var fv := r.data.fieldValues.value;
      fieldName in fv && fv[fieldName] == value
      && forall k | k != fieldName ::
           (k in fv <==> k in FieldValuesOf(n.data))
           && (k in fv ==> fv[k] == FieldValuesOf(n.data)[k])
  {
    n.(data := n.data.(fieldValues := Some(FieldValuesOf(n.data)[fieldName := value])))
  }

  /** The node list updateNodeField installs: `nodes.map(n => n.id === nodeId ? set(n) : n)`. */
  function WithFieldValue(nodes: seq<Node>, nodeId: string, fieldName: string, value: string): (r: seq<Node>)
    ensures |r| == |nodes|
    ensures forall i | 0 <= i < |nodes| && nodes[i].id != nodeId :: r[i] == nodes[i]
    ensures forall i | 0 <= i < |nodes| && nodes[i].id == nodeId :: r[i] == SetFieldValue(nodes[i], fieldName, value)
    ensures forall i | 0 <= i < |nodes| :: r[i].id == nodes[i].id
  {
    if nodes == [] then []
    else
      var head := if nodes[0].id == nodeId then SetFieldValue(nodes[0], fieldName, value) else nodes[0];
      [head] + WithFieldValue(nodes[1..], nodeId, fieldName, value)
  }

  /** An update addressed to an id no node has leaves the node list value-equal. */
  lemma WithFieldValueUnknownId(nodes: seq<Node>, nodeId: string, fieldName: string, value: string)
    requires forall i | 0 <= i < |nodes| :: nodes[i].id != nodeId
    ensures WithFieldValue(nodes, nodeId, fieldName, value) == nodes
  {
    var r := WithFieldValue(nodes, nodeId, fieldName, value);
    assert forall i | 0 <= i < |nodes| :: r[i] == nodes[i];
  }

  /** A custom type's schema as getInitNodeData copies it: colours verbatim, `|| []` on the lists. */
  function SchemaOf(c: CustomConfig): (s: Schema)
    ensures s.backgroundColor == c.backgroundColor && s.borderColor == c.borderColor
    ensures c.inputs.Some? ==> s.inputs == c.inputs.value
    ensures c.inputs.None? ==> s.inputs == []
    ensures c.outputs.Some? ==> s.outputs == c.outputs.value
    ensures c.outputs.None? ==> s.outputs == []
    ensures c.fields.Some? ==> s.fields == c.fields.value
    ensures c.fields.None? ==> s.fields == []
  {
    Schema(c.backgroundColor, c.borderColor, c.inputs.GetOr([]), c.outputs.GetOr([]), c.fields.GetOr([]))
  }

  /** getInitNodeData(nodeID, type, customConfig) over the registry `customNodeTypes`:
      a carried config for type `custom` first, then a registered name, then a built-in node. */
  function InitNodeData(registry: map<string, CustomConfig>, nodeID: string, t: string, customConfig: Option<CustomConfig>): (r: NodeData)
    ensures r.id == nodeID
    ensures r.schema.Some? <==> (t == "custom" && customConfig.Some?) || t in registry
    ensures r.schema.Some? ==> r.typeTag == "custom" && r.fieldValues == Some(map[])
    ensures r.schema.None? ==> r.typeTag == t && r.nodeType == t && r.fieldValues.None?
    ensures t == "custom" && customConfig.Some? ==>
      r.nodeType == customConfig.value.nodeType && r.schema == Some(SchemaOf(customConfig.value))
    ensures !(t == "custom" && customConfig.Some?) && t in registry ==>
      r.nodeType == t && r.schema == Some(SchemaOf(registry[t]))
  {
    if t == "custom" && customConfig.Some? then
      NodeData(nodeID, "custom", customConfig.value.nodeType, Some(SchemaOf(customConfig.value)), Some(map[]))
    else if t in registry then
      NodeData(nodeID, "custom", t, Some(SchemaOf(registry[t])), Some(map[]))
    else
      NodeData(nodeID, t, t, None, None)
  }

  /** Registering a type and then instantiating it by name, without a carried config, yields an
      instance of exactly the registered schema, with no field values yet. */
  lemma RegisterThenInstantiate(registry: map<string, CustomConfig>, c: CustomConfig, nodeID: string)
    ensures var d := InitNodeData(registry[c.nodeType := c], nodeID, c.nodeType, None);
      d.typeTag == "custom" && d.nodeType == c.nodeType && d.schema == Some(SchemaOf(c))
      && d.fieldValues == Some(map[])
  {
  }

  /** The store. Each method replaces one field with a new value built from the old one. */
  class Store {
    var nodes: seq<Node>
    var edges: seq<Edge>
    var customNodeTypes: map<string, CustomConfig>
    var nodeIDs: map<string, nat>

    /** `id` has been handed out by getNodeID: it is `${t}-${n}` for a counter value already reached. */
    ghost predicate Issued(id: string)
      reads this
    {
      exists t, n :: t in nodeIDs && 1 <= n <= nodeIDs[t] && id == IdOf(t, n)
    }

    /** Every node carries an id handed out by getNodeID, and no two nodes share an id. */
    ghost predicate Tracked()
      reads this
    {
      && (forall i | 0 <= i < |nodes| :: Issued(nodes[i].id))
      && (forall i, j | 0 <= i < j < |nodes| :: nodes[i].id != nodes[j].id)
    }

    constructor ()
      ensures nodes == [] && edges == [] && customNodeTypes == map[] && nodeIDs == map[]
      ensures Tracked()
    {
      nodes, edges, customNodeTypes, nodeIDs := [], [], map[], map[];
    }

    /** getNodeID(type): bump the counter of `t` (from 0 when absent) and name the result after it. */
    method GetNodeID(t: string) returns (id: string)
      modifies this`nodeIDs
      ensures nodeIDs == old(nodeIDs)[t := Counter(old(nodeIDs), t) + 1]
      ensures id == IdOf(t, nodeIDs[t])
      ensures t !in old(nodeIDs) ==> id == t + "-1"
      ensures !old(Issued(id)) && Issued(id)
      ensures forall x | old(Issued(x)) :: Issued(x)
    {
      var next := Counter(nodeIDs, t) + 1;
      nodeIDs := nodeIDs[t := next];
      id := IdOf(t, next);
      assert Issued(id);
      forall t', n' | t' in old(nodeIDs) && 1 <= n' <= old(nodeIDs)[t'] && id == IdOf(t', n')
        ensures false
      {
        IdOfInjective(t, next, t', n');
      }
      forall x | old(Issued(x)) ensures Issued(x) {
        var t', n' :| t' in old(nodeIDs) && 1 <= n' <= old(nodeIDs)[t'] && x == IdOf(t', n');
        assert t' in nodeIDs && n' <= nodeIDs[t'];
      }
    }

    /** addNode(node): append, with no check that the id is new. */
    method AddNode(n: Node)
      modifies this`nodes
      ensures nodes == old(nodes) + [n]
      ensures edges == old(edges) && customNodeTypes == old(customNodeTypes) && nodeIDs == old(nodeIDs)
    {
      nodes := nodes + [n];
    }

    /** updateNodeField(nodeId, fieldName, fieldValue). */
    method UpdateNodeField(nodeId: string, fieldName: string, value: string)
      modifies this`nodes
      ensures nodes == WithFieldValue(old(nodes), nodeId, fieldName, value)
      ensures edges == old(edges) && customNodeTypes == old(customNodeTypes) && nodeIDs == old(nodeIDs)
      ensures old(Tracked()) ==> Tracked()
    {
      nodes := WithFieldValue(nodes, nodeId, fieldName, value);
    }

    /** addNodeType(config): insert or overwrite the registry entry named `config.nodeType`. */
    method AddNodeType(c: CustomConfig)
      modifies this`customNodeTypes
      ensures customNodeTypes == old(customNodeTypes)[c.nodeType := c]
      ensures nodes == old(nodes) && edges == old(edges) && nodeIDs == old(nodeIDs)
    {
      customNodeTypes := customNodeTypes[c.nodeType := c];
    }
  }
}
