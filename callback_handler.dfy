/** The graph a serverless-workflow callback state compiles to: a composite node
    holding an embedded sub-process that runs the state's optional action, waits
    for the callback event, and ends.

    The builders of the process-definition API are modelled as small classes whose
    methods add nodes and connections one at a time, and the id generator as a
    stream of ids drawn in order. The embedded graph the builder produces is
    specified by `EmbeddedChain`; its shape is proved about that function. */
module CallbackGraph {
  import opened Sequences

  /** The action a callback state runs before waiting for its event. */
  datatype Action = Action(functionRef: string)

  /** The parts of a callback state that makeNode reads. */
  datatype CallbackState = CallbackState(name: string, action: Option<Action>, eventRef: string)

  /** A node of the embedded sub-process. The event node carries the reference of
      the event it waits for. */
  datatype Node =
    | StartNode(id: int, name: string)
    | ActionNode(id: int, action: Action)
    | EventNode(id: int, eventRef: string)
    | EndNode(id: int, name: string, terminate: bool)

  /** A connection from the node with id `from` to the node with id `to`. */
  datatype Connection = Connection(from: int, to: int)

  datatype Graph = Graph(nodes: seq<Node>, connections: seq<Connection>)

  const StartName: string := "EmbeddedStart"
  const EndName: string := "EmbeddedEnd"

  /** How many ids the embedded chain draws: start, the action if there is one, event and end. */
  function ChainLength(state: CallbackState): (n: nat)
    ensures state.action.Some? <==> n == 4
    ensures 3 <= n <= 4
  {
    if state.action.Some? then 4 else 3
  }

  /** `n` consecutive ids of the stream, beginning with draw number `from`. */
  function Drawn(stream: nat -> int, from: nat, n: nat): (r: seq<int>)
    decreases n
    ensures |r| == n
    ensures forall i :: 0 <= i < n ==> r[i] == stream(from + i)
  {
    if n == 0 then [] else [stream(from)] + Drawn(stream, from + 1, n - 1)
  }

  /** A generator never hands out the same id twice. */
  ghost predicate NeverRepeats(stream: nat -> int)
  {
    forall i: nat, j: nat :: i != j ==> stream(i) != stream(j)
  }

  ghost predicate DistinctIds(nodes: seq<Node>)
  {
    forall i, j :: 0 <= i < j < |nodes| ==> nodes[i].id != nodes[j].id
  }

  /** Connects each node to the next one. */
  function Link(nodes: seq<Node>): (r: seq<Connection>)
    ensures |r| == if nodes == [] then 0 else |nodes| - 1
    ensures forall k :: 0 <= k < |r| ==> r[k] == Connection(nodes[k].id, nodes[k + 1].id)
  {
    if |nodes| < 2 then []
    else [Connection(nodes[0].id, nodes[1].id)] + Link(nodes[1..])
  }

  /** The nodes of the embedded sub-process, in the order they are added. */
  function ChainNodes(state: CallbackState, ids: seq<int>): (nodes: seq<Node>)
    requires |ids| == ChainLength(state)
    ensures |nodes| == |ids|
    ensures forall i :: 0 <= i < |ids| ==> nodes[i].id == ids[i]
    ensures nodes[0].StartNode? && nodes[|nodes| - 1].EndNode? && nodes[|nodes| - 2].EventNode?
  {
    match state.action
    case Some(action) =>
      [StartNode(ids[0], StartName), ActionNode(ids[1], action), EventNode(ids[2], state.eventRef),
       EndNode(ids[3], EndName, true)]
    case None =>
      [StartNode(ids[0], StartName), EventNode(ids[1], state.eventRef), EndNode(ids[2], EndName, true)]
  }

  /** The embedded sub-process of a callback state whose nodes receive `ids` in
      order: a chain from start, through the action if there is one, and the event,
      to end. Each node carries the id drawn for it. */
  function EmbeddedChain(state: CallbackState, ids: seq<int>): (g: Graph)
    requires |ids| == ChainLength(state)
    ensures |g.nodes| == |ids|
    ensures forall i :: 0 <= i < |ids| ==> g.nodes[i].id == ids[i]
  {
    var nodes := ChainNodes(state, ids);
    Graph(nodes, Link(nodes))
  }

  // ---------------------------------------------------------------------------
  // Builders

  /** The id generator: draw number `drawn` of `stream` is the next id it hands out. */
  class NodeIdGenerator {
    const stream: nat -> int
    var drawn: nat

    constructor(stream: nat -> int)
      ensures this.stream == stream && drawn == 0
    {
      this.stream := stream;
      drawn := 0;
    }

    method GetId() returns (id: int)
      modifies this`drawn
      ensures id == stream(old(drawn)) && drawn == old(drawn) + 1
    {
      id := stream(drawn);
      drawn := drawn + 1;
    }
  }

  /** The builder of a composite node and of the sub-process embedded in it. Its id,
      name and autoComplete flag are fixed by the builder chain that creates it. */
  class CompositeContextNodeFactory {
    const id: int
    const name: string
    const autoComplete: bool
    var nodes: seq<Node>
    var connections: seq<Connection>

    constructor(id: int, name: string, autoComplete: bool)
      ensures this.id == id && this.name == name && this.autoComplete == autoComplete
      ensures nodes == [] && connections == []
    {
      this.id, this.name, this.autoComplete := id, name, autoComplete;
      nodes, connections := [], [];
    }

    function Contents(): Graph
      reads this
    {
      Graph(nodes, connections)
    }

    /** Adds one node, already carrying its settings, to the embedded sub-process. */
    method AddNode(node: Node)
      modifies this`nodes
      ensures nodes == old(nodes) + [node]
    {
      nodes := nodes + [node];
    }

    /** Connects the node with id `from` to the node with id `to`. */
    method Connect(from: int, to: int)
      modifies this`connections
      ensures connections == old(connections) + [Connection(from, to)]
    {
      connections := connections + [Connection(from, to)];
    }
  }

  /** The builder of the enclosing process: it collects the composite nodes created in it. */
  class NodeContainerFactory {
    var composites: seq<CompositeContextNodeFactory>

    constructor()
      ensures composites == []
    {
      composites := [];
    }

    /** Creates a composite node with the given id, name and autoComplete flag and adds it to the container. */
    method CompositeContextNode(id: int, name: string, autoComplete: bool) returns (sub: CompositeContextNodeFactory)
      modifies this`composites
      ensures fresh(sub) && sub.id == id && sub.name == name && sub.autoComplete == autoComplete
      ensures sub.nodes == [] && sub.connections == []
      ensures composites == old(composites) + [sub]
    {
      sub := new CompositeContextNodeFactory(id, name, autoComplete);
      composites := composites + [sub];
    }
  }

  class CallbackHandler {
    const state: CallbackState
    const factory: NodeContainerFactory
    const idGenerator: NodeIdGenerator

    constructor(state: CallbackState, factory: NodeContainerFactory, idGenerator: NodeIdGenerator)
      ensures this.state == state && this.factory == factory && this.idGenerator == idGenerator
    {
      this.state, this.factory, this.idGenerator := state, factory, idGenerator;
    }

    /** getActionNode: one node that runs the action, with a freshly drawn id. */
    method GetActionNode(sub: CompositeContextNodeFactory, action: Action) returns (actionId: int)
      modifies sub`nodes, idGenerator`drawn
      ensures actionId == idGenerator.stream(old(idGenerator.drawn))
      ensures idGenerator.drawn == old(idGenerator.drawn) + 1
      ensures sub.nodes == old(sub.nodes) + [ActionNode(actionId, action)]
    {
      actionId := idGenerator.GetId();
      sub.AddNode(ActionNode(actionId, action));
    }

    /** The start step: the start node named EmbeddedStart, with the next id of the generator. */
    method AddStartNode(sub: CompositeContextNodeFactory) returns (startId: int)
      modifies sub`nodes, idGenerator`drawn
      ensures startId == idGenerator.stream(old(idGenerator.drawn))
      ensures idGenerator.drawn == old(idGenerator.drawn) + 1
      ensures sub.nodes == old(sub.nodes) + [StartNode(startId, StartName)]
    {
      startId := idGenerator.GetId();
      sub.AddNode(StartNode(startId, StartName));
    }

    /** The action step: the action node, connected from the start node; it then
        takes the start node's place as the node the event follows. */
    method AddActionStep(sub: CompositeContextNodeFactory, startId: int, action: Action) returns (actionId: int)
      modifies sub`nodes, sub`connections, idGenerator`drawn
      ensures actionId == idGenerator.stream(old(idGenerator.drawn))
      ensures idGenerator.drawn == old(idGenerator.drawn) + 1
      ensures sub.nodes == old(sub.nodes) + [ActionNode(actionId, action)]
      ensures sub.connections == old(sub.connections) + [Connection(startId, actionId)]
    {
      actionId := GetActionNode(sub, action);
      sub.Connect(startId, actionId);
    }

    /** The event step: the node waiting for the state's event, connected from the
        node before it. */
    method AddEventStep(sub: CompositeContextNodeFactory, previousId: int) returns (eventId: int)
      modifies sub`nodes, sub`connections, idGenerator`drawn
      ensures eventId == idGenerator.stream(old(idGenerator.drawn))
      ensures idGenerator.drawn == old(idGenerator.drawn) + 1
      ensures sub.nodes == old(sub.nodes) + [EventNode(eventId, state.eventRef)]
      ensures sub.connections == old(sub.connections) + [Connection(previousId, eventId)]
    {
      eventId := idGenerator.GetId();
      sub.AddNode(EventNode(eventId, state.eventRef));
      sub.Connect(previousId, eventId);
    }

    /** The end step: the terminating end node, connected from the event node. */
    method AddEndStep(sub: CompositeContextNodeFactory, eventId: int) returns (endId: int)
      modifies sub`nodes, sub`connections, idGenerator`drawn
      ensures endId == idGenerator.stream(old(idGenerator.drawn))
      ensures idGenerator.drawn == old(idGenerator.drawn) + 1
      ensures sub.nodes == old(sub.nodes) + [EndNode(endId, EndName, true)]
      ensures sub.connections == old(sub.connections) + [Connection(eventId, endId)]
    {
      endId := idGenerator.GetId();
      sub.AddNode(EndNode(endId, EndName, true));
      sub.Connect(eventId, endId);
    }

    /** makeNode: a new composite named after the state, set to complete automatically,
        whose embedded sub-process is the chain of the state, with ids drawn in the
        order composite, start, action, event, end. */
    method MakeNode() returns (sub: CompositeContextNodeFactory)
      modifies factory`composites, idGenerator`drawn
      ensures fresh(sub)
      ensures factory.composites == old(factory.composites) + [sub]
      ensures sub.id == idGenerator.stream(old(idGenerator.drawn))
      ensures sub.name == state.name && sub.autoComplete
      ensures idGenerator.drawn == old(idGenerator.drawn) + 1 + ChainLength(state)
      ensures sub.Contents() ==
                EmbeddedChain(state, Drawn(idGenerator.stream, old(idGenerator.drawn) + 1, ChainLength(state)))
    {
      var compositeId := idGenerator.GetId();
      sub := factory.CompositeContextNode(compositeId, state.name, true);
      BuildEmbeddedChain(sub);
    }

    /** The optional action step of makeNode: with an action, the action node after
        `startId` (whose id becomes the one the event follows); without one, nothing. */
    method AddActionIfAny(sub: CompositeContextNodeFactory, startId: int)
      returns (lastId: int, ghost added: seq<Node>, ghost linked: seq<Connection>)
      modifies sub`nodes, sub`connections, idGenerator`drawn
      ensures state.action.None? ==>
                lastId == startId && added == [] && linked == [] && idGenerator.drawn == old(idGenerator.drawn)
      ensures state.action.Some? ==>
                && lastId == idGenerator.stream(old(idGenerator.drawn))
                && idGenerator.drawn == old(idGenerator.drawn) + 1
                && added == [ActionNode(lastId, state.action.value)]
                && linked == [Connection(startId, lastId)]
      ensures sub.nodes == old(sub.nodes) + added && sub.connections == old(sub.connections) + linked
    {
      lastId, added, linked := startId, [], [];
      if state.action.Some? {
        lastId := AddActionStep(sub, startId, state.action.value);
        added, linked := [ActionNode(lastId, state.action.value)], [Connection(startId, lastId)];
      }
    }

    /** The body of makeNode after the composite exists: start, the optional action,
        event and end, each with a freshly drawn id and connected to the one before. */
    method BuildEmbeddedChain(sub: CompositeContextNodeFactory)
      requires sub.nodes == [] && sub.connections == []
      modifies sub`nodes, sub`connections, idGenerator`drawn
      ensures idGenerator.drawn == old(idGenerator.drawn) + ChainLength(state)
      ensures sub.Contents() == EmbeddedChain(state, Drawn(idGenerator.stream, old(idGenerator.drawn), ChainLength(state)))
    {
      var startId := AddStartNode(sub);
      var lastId, actionNodes, actionConnections := AddActionIfAny(sub, startId);
      var eventId := AddEventStep(sub, lastId);
      var endId := AddEndStep(sub, eventId);
      ghost var ids := (if state.action.Some? then [startId, lastId] else [startId]) + [eventId, endId];
      assert ids == Drawn(idGenerator.stream, old(idGenerator.drawn), ChainLength(state));
      ChainBuilt(state, ids, actionNodes, actionConnections, sub.nodes, sub.connections);
    }
  }

  /** The nodes and connections makeNode adds, one at a time, form the chain of the
      state over `ids`; `actionNodes` and `actionConnections` are what the optional
      action step adds. */
  lemma ChainBuilt(state: CallbackState, ids: seq<int>,
                   actionNodes: seq<Node>, actionConnections: seq<Connection>,
                   nodes: seq<Node>, connections: seq<Connection>)
    requires |ids| == ChainLength(state)
    requires state.action.Some? ==>
               actionNodes == [ActionNode(ids[1], state.action.value)] && actionConnections == [Connection(ids[0], ids[1])]
    requires state.action.None? ==> actionNodes == [] && actionConnections == []
    requires nodes == [] + [StartNode(ids[0], StartName)] + actionNodes
                      + [EventNode(ids[|ids| - 2], state.eventRef)] + [EndNode(ids[|ids| - 1], EndName, true)]
    requires connections == [] + actionConnections + [Connection(ids[|ids| - 3], ids[|ids| - 2])]
                            + [Connection(ids[|ids| - 2], ids[|ids| - 1])]
    ensures Graph(nodes, connections) == EmbeddedChain(state, ids)
  {
    ChainConnections(state, ids);
  }

  // ---------------------------------------------------------------------------
  // Shape of the embedded chain

  /** The chain begins with the start node named EmbeddedStart and ends with the
      terminating end node named EmbeddedEnd; the node before the end waits for the
      state's event, and the action, when there is one, comes right after start. */
  lemma ChainShape(state: CallbackState, ids: seq<int>)
    requires |ids| == ChainLength(state)
    ensures var nodes := EmbeddedChain(state, ids).nodes;
      && nodes[0] == StartNode(ids[0], StartName)
      && nodes[|nodes| - 1] == EndNode(ids[|ids| - 1], EndName, true)
      && nodes[|nodes| - 2] == EventNode(ids[|ids| - 2], state.eventRef)
      && (state.action.Some? <==> |nodes| == 4)
      && (state.action.Some? ==> nodes[1] == ActionNode(ids[1], state.action.value))
      && forall i :: 0 < i < |nodes| - 1 ==> !nodes[i].StartNode? && !nodes[i].EndNode?
  {
  }

  /** The connections are exactly start to action, action to event and event to end
      when there is an action, and start to event and event to end otherwise. */
  lemma ChainConnections(state: CallbackState, ids: seq<int>)
    requires |ids| == ChainLength(state)
    ensures state.action.None? ==>
              EmbeddedChain(state, ids).connections == [Connection(ids[0], ids[1]), Connection(ids[1], ids[2])]
    ensures state.action.Some? ==>
              EmbeddedChain(state, ids).connections ==
                [Connection(ids[0], ids[1]), Connection(ids[1], ids[2]), Connection(ids[2], ids[3])]
  {
    var g := EmbeddedChain(state, ids);
    if state.action.None? {
      assert g.connections[0] == Connection(ids[0], ids[1]);
      assert g.connections[1] == Connection(ids[1], ids[2]);
    } else {
      assert g.connections[0] == Connection(ids[0], ids[1]);
      assert g.connections[1] == Connection(ids[1], ids[2]);
      assert g.connections[2] == Connection(ids[2], ids[3]);
    }
  }

  /** With a generator that never repeats, the composite and all embedded nodes
      built by one makeNode have pairwise distinct ids. */
  lemma IdsDistinct(state: CallbackState, stream: nat -> int, drawn: nat)
    requires NeverRepeats(stream)
    ensures var nodes := EmbeddedChain(state, Drawn(stream, drawn + 1, ChainLength(state))).nodes;
      && DistinctIds(nodes)
      && forall i :: 0 <= i < |nodes| ==> nodes[i].id != stream(drawn)
  {
    var ids := Drawn(stream, drawn + 1, ChainLength(state));
    var nodes := EmbeddedChain(state, ids).nodes;
    forall i, j | 0 <= i < j < |nodes| ensures nodes[i].id != nodes[j].id {
      assert nodes[i].id == stream(drawn + 1 + i) && nodes[j].id == stream(drawn + 1 + j);
    }
    forall i | 0 <= i < |nodes| ensures nodes[i].id != stream(drawn) {
      assert nodes[i].id == stream(drawn + 1 + i);
    }
  }

  /** Connections into the node with id `id`. */
  function InDegree(cs: seq<Connection>, id: int): (d: nat)
    ensures d <= |cs|
    ensures d == 0 <==> forall k :: 0 <= k < |cs| ==> cs[k].to != id
  {
    if cs == [] then 0 else (if cs[0].to == id then 1 else 0) + InDegree(cs[1..], id)
  }

  /** Connections out of the node with id `id`. */
  function OutDegree(cs: seq<Connection>, id: int): (d: nat)
    ensures d <= |cs|
    ensures d == 0 <==> forall k :: 0 <= k < |cs| ==> cs[k].from != id
  {
    if cs == [] then 0 else (if cs[0].from == id then 1 else 0) + OutDegree(cs[1..], id)
  }

  lemma {:induction false} NoConnectionsOf(nodes: seq<Node>, id: int)
    requires forall k :: 0 <= k < |nodes| ==> nodes[k].id != id
    ensures InDegree(Link(nodes), id) == 0 && OutDegree(Link(nodes), id) == 0
  {
    if |nodes| >= 2 {
      NoConnectionsOf(nodes[1..], id);
    }
  }

  /** Linking nodes with distinct ids gives a linear chain: every node but the
      first has exactly one incoming connection, every node but the last exactly
      one outgoing connection, and the ends have none. */
  lemma {:induction false} LinkIsLinear(nodes: seq<Node>)
    requires DistinctIds(nodes)
    ensures forall k :: 0 <= k < |nodes| ==>
              && InDegree(Link(nodes), nodes[k].id) == (if k == 0 then 0 else 1)
              && OutDegree(Link(nodes), nodes[k].id) == (if k == |nodes| - 1 then 0 else 1)
  {
    if |nodes| >= 2 {
      var rest := nodes[1..];
      LinkIsLinear(rest);
      NoConnectionsOf(rest, nodes[0].id);
      var cs := Link(nodes);
      assert cs[1..] == Link(rest);
      forall k | 0 <= k < |nodes|
        ensures InDegree(cs, nodes[k].id) == (if k == 0 then 0 else 1)
        ensures OutDegree(cs, nodes[k].id) == (if k == |nodes| - 1 then 0 else 1)
      {
        if k > 0 {
          assert nodes[k] == rest[k - 1];
        }
      }
    }
  }

  /** The embedded sub-process is a linear chain when its ids are distinct. */
  lemma ChainIsLinear(state: CallbackState, ids: seq<int>)
    requires |ids| == ChainLength(state)
    requires forall i, j :: 0 <= i < j < |ids| ==> ids[i] != ids[j]
    ensures var g := EmbeddedChain(state, ids);
      forall k :: 0 <= k < |g.nodes| ==>
        && InDegree(g.connections, g.nodes[k].id) == (if g.nodes[k].StartNode? then 0 else 1)
        && OutDegree(g.connections, g.nodes[k].id) == (if g.nodes[k].EndNode? then 0 else 1)
  {
    var g := EmbeddedChain(state, ids);
    ChainShape(state, ids);
    LinkIsLinear(g.nodes);
  }

  /** The end node's only predecessor is the event node: the event always
      immediately precedes the end. */
  lemma EventPrecedesEnd(state: CallbackState, ids: seq<int>)
    requires |ids| == ChainLength(state)
    requires forall i, j :: 0 <= i < j < |ids| ==> ids[i] != ids[j]
    ensures var g := EmbeddedChain(state, ids);
      var event, end := g.nodes[|g.nodes| - 2], g.nodes[|g.nodes| - 1];
      && event.EventNode? && end.EndNode?
      && Connection(event.id, end.id) in g.connections
      && forall c :: c in g.connections && c.to == end.id ==> c.from == event.id
  {
    ChainShape(state, ids);
    ChainConnections(state, ids);
  }
}
