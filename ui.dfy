/** The canvas's drop handler: a palette item dropped on the canvas becomes a new node in the store. */
module Ui {
  import opened Wrappers
  import opened Text
  import opened GraphStore

  /** The parsed `application/reactflow` drag payload. */
  datatype DragData = DragData(nodeType: string, customConfig: Option<CustomConfig>)

  /** The node onDrop adds under a freshly issued id: typed `custom` exactly when the payload carried
      a config, with its data built by getInitNodeData for the dropped type. */
  function NewNode(registry: map<string, CustomConfig>, id: string, drag: DragData): (n: Node)
    ensures n.id == id && n.data.id == id
    ensures drag.customConfig.Some? ==> n.typeTag == "custom"
    ensures drag.customConfig.None? ==> n.typeTag == drag.nodeType
    ensures n.data == InitNodeData(registry, id, drag.nodeType, drag.customConfig)
  {
    Node(id, if drag.customConfig.Some? then "custom" else drag.nodeType,
      InitNodeData(registry, id, drag.nodeType, drag.customConfig))
  }

  /** The type the canvas renders a node with agrees with the type recorded in its data exactly
      when no registered name is dropped bare and no carried config comes with a plain type: a
      registered type named like a built-in one (say `text`) is rendered by that built-in component
      while its data says `custom`. */
  lemma TypeTagsAgree(registry: map<string, CustomConfig>, id: string, drag: DragData)
    ensures var n := NewNode(registry, id, drag);
      n.typeTag == n.data.typeTag <==>
        if drag.customConfig.Some? then drag.nodeType == "custom" || drag.nodeType in registry
        else drag.nodeType !in registry || drag.nodeType == "custom"
  {
  }

  /** A custom palette item is dragged as type `custom` with its config attached, so its id is
      drawn from the shared `custom` counter whatever the type's name, while its data names the
      type and copies its schema. */
  lemma CustomDropInstance(registry: map<string, CustomConfig>, n: nat, c: CustomConfig)
    ensures var node := NewNode(registry, IdOf("custom", n), DragData("custom", Some(c)));
      && node.id == "custom-" + NatToString(n)
      && node.typeTag == "custom" && node.data.typeTag == "custom"
      && node.data.nodeType == c.nodeType && node.data.schema == Some(SchemaOf(c))
  {
  }

  /** onDrop: nothing happens before the flow is initialised or when the payload does not parse;
      otherwise one id is drawn from the counters and one node is appended. The store keeps every
      node id issued and distinct. */
  method OnDrop(store: Store, flowReady: bool, payload: Option<DragData>)
    modifies store`nodes, store`nodeIDs
    ensures !flowReady || payload.None? ==> store.nodes == old(store.nodes) && store.nodeIDs == old(store.nodeIDs)
    ensures flowReady && payload.Some? ==>
      var t := payload.value.nodeType;
      && store.nodeIDs == old(store.nodeIDs)[t := Counter(old(store.nodeIDs), t) + 1]
      && store.nodes == old(store.nodes) + [NewNode(old(store.customNodeTypes), IdOf(t, store.nodeIDs[t]), payload.value)]
    ensures store.edges == old(store.edges) && store.customNodeTypes == old(store.customNodeTypes)
    ensures old(store.Tracked()) ==> store.Tracked()
  {
    if !flowReady || payload.None? {
      return;
    }
    var drag := payload.value;
    ghost var before := store.nodes;
    ghost var wasTracked := store.Tracked();
    var nodeID := store.GetNodeID(drag.nodeType);
    var node := NewNode(store.customNodeTypes, nodeID, drag);
    store.AddNode(node);
    if wasTracked {
      forall i | 0 <= i < |before| ensures before[i].id != nodeID && store.Issued(before[i].id) {
        assert old(store.Issued(before[i].id));
      }
    }
  }
}
