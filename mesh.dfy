/** The node mesh: nodes that broadcast to their live peers
    (src/mesh/nodes/node.js), a bus that delivers to every live node and sorts
    its event list in place (src/mesh/distributed-bus.js), and leader election by
    largest id among live nodes (src/mesh/consensus/leader-election.js). A
    delivery is what `receive` logs: the receiving node, the message and its
    sender. */
module Mesh {
  import opened Wrappers
  import opened Sorting

  /** The `from` of a message: a node id, or the bus. */
  datatype Sender = FromNode(id: int) | FromBus

  datatype Delivery<M> = Delivery(receiver: int, message: M, from: Sender)

  class MeshNode {
    const id: int
    var peers: seq<MeshNode>
    var alive: bool

    /** A new node is alive and has no peers. */
    constructor (id: int)
      ensures this.id == id && peers == [] && alive
    {
      this.id := id;
      peers := [];
      alive := true;
    }

    /** `addPeer(node)`: appends, even a node already listed. */
    method AddPeer(node: MeshNode)
      modifies this
      ensures peers == old(peers) + [node]
      ensures alive == old(alive)
    {
      peers := peers + [node];
    }

    /** `receive(message, from)`: only logs, and changes no node. */
    method Receive<M>(message: M, from: Sender) returns (logged: Delivery<M>)
      ensures logged.receiver == id && logged.message == message && logged.from == from
    {
      logged := Delivery(id, message, from);
    }

    /** `broadcast(message)`: each live peer, in list order, receives the message
        from this node. */
    method Broadcast<M>(message: M) returns (delivered: seq<Delivery<M>>)
      ensures delivered == Deliveries(peers, message, FromNode(id))
    {
      delivered := [];
      for i := 0 to |peers|
        invariant delivered == Deliveries(peers[..i], message, FromNode(id))
      {
        assert peers[..i + 1][..i] == peers[..i];
        if peers[i].alive {
          var d := peers[i].Receive(message, FromNode(id));
          delivered := delivered + [d];
        }
      }
      assert peers[..|peers|] == peers;
    }
  }

  /** What a loop over `nodes` calling `receive` on the live ones logs. */
  function Deliveries<M>(nodes: seq<MeshNode>, message: M, from: Sender): (r: seq<Delivery<M>>)
    reads nodes
    ensures |r| <= |nodes|
    ensures forall d :: d in r ==>
      (d.message == message && d.from == from &&
       exists i :: 0 <= i < |nodes| && nodes[i].alive && nodes[i].id == d.receiver)
  {
    if nodes == [] then []
    else
      var n := |nodes| - 1;
      var r := Deliveries(nodes[..n], message, from) +
        (if nodes[n].alive then [Delivery(nodes[n].id, message, from)] else []);
      assert forall i :: 0 <= i < n ==> nodes[..n][i] == nodes[i];
      r
  }

  /** Delivering to two lists delivers to the first, then to the second: a node
      listed twice receives twice. */
  lemma {:induction false} DeliveriesAppend<M>(a: seq<MeshNode>, b: seq<MeshNode>, message: M, from: Sender)
    ensures Deliveries(a + b, message, from) == Deliveries(a, message, from) + Deliveries(b, message, from)
    decreases |b|
  {
    if b != [] {
      var n := |b| - 1;
      assert (a + b)[..|a| + n] == a + b[..n];
      DeliveriesAppend(a, b[..n], message, from);
    } else {
      assert a + b == a;
    }
  }

  /** Only live nodes receive: a list of dead nodes receives nothing, and each live
      node receives exactly once per listing. */
  lemma {:induction false} DeliveriesCount<M>(nodes: seq<MeshNode>, message: M, from: Sender)
    ensures |Deliveries(nodes, message, from)| == |AliveOf(nodes)|
    decreases |nodes|
  {
    if nodes != [] {
      DeliveriesCount(nodes[..|nodes| - 1], message, from);
    }
  }

  /** `nodes.filter(n => n.alive)` */
  function AliveOf(nodes: seq<MeshNode>): (r: seq<MeshNode>)
    reads nodes
    ensures forall i :: 0 <= i < |r| ==> r[i] in nodes && r[i].alive
    ensures forall i :: 0 <= i < |nodes| && nodes[i].alive ==> nodes[i] in r
    ensures |r| <= |nodes|
  {
    if nodes == [] then []
    else
      var n := |nodes| - 1;
      assert nodes == nodes[..n] + [nodes[n]];
      AliveOf(nodes[..n]) + (if nodes[n].alive then [nodes[n]] else [])
  }

  /** The filter keeps every live node as often as the list has it, and no other. */
  lemma {:induction false} AliveCount(nodes: seq<MeshNode>, m: MeshNode)
    ensures multiset(AliveOf(nodes))[m] == if m.alive then multiset(nodes)[m] else 0
  {
    if nodes != [] {
      var n := |nodes| - 1;
      AliveCount(nodes[..n], m);
      assert nodes == nodes[..n] + [nodes[n]];
    }
  }

  /** The filter keeps the list order: filtering two parts in turn is filtering
      the whole. */
  lemma {:induction false} AliveAppend(a: seq<MeshNode>, b: seq<MeshNode>)
    ensures AliveOf(a + b) == AliveOf(a) + AliveOf(b)
    decreases |b|
  {
    if b == [] {
      assert a + b == a;
    } else {
      var n := |b| - 1;
      assert (a + b)[..|a + b| - 1] == a + b[..n] && (a + b)[|a + b| - 1] == b[n];
      AliveAppend(a, b[..n]);
    }
  }

  /** A mesh event; only `timestamp` is read. */
  datatype MeshEvent = MeshEvent(timestamp: int, body: map<string, string>)

  /** The comparator `(a, b) => a.timestamp - b.timestamp`. */
  predicate ByTimestamp(a: MeshEvent, b: MeshEvent) {
    a.timestamp - b.timestamp <= 0
  }

  class DistributedBus {
    const nodes: seq<MeshNode>
    var events: seq<MeshEvent>

    constructor (nodes: seq<MeshNode>)
      ensures this.nodes == nodes && events == []
    {
      this.nodes := nodes;
      events := [];
    }

    /** `publish(event)`: records the event, then every live node, in node order,
        receives it from the bus. */
    method Publish(event: MeshEvent) returns (delivered: seq<Delivery<MeshEvent>>)
      modifies this
      ensures events == old(events) + [event]
      ensures delivered == Deliveries(nodes, event, FromBus)
    {
      events := events + [event];
      delivered := [];
      for i := 0 to |nodes|
        invariant events == old(events) + [event]
        invariant delivered == Deliveries(nodes[..i], event, FromBus)
      {
        assert nodes[..i + 1][..i] == nodes[..i];
        if nodes[i].alive {
          var d := nodes[i].Receive(event, FromBus);
          delivered := delivered + [d];
        }
      }
      assert nodes[..|nodes|] == nodes;
    }

    /** `getOrderedEvents()`: sorts the bus's own list by ascending timestamp, in
        place, and returns that list. */
    method GetOrderedEvents() returns (ordered: seq<MeshEvent>)
      modifies this
      ensures events == SortWith(old(events), ByTimestamp)
      ensures ordered == events
    {
      events := SortWith(events, ByTimestamp);
      ordered := events;
    }
  }

  /** The in-place sort keeps every event, orders them by timestamp and keeps events
      with equal timestamps in publication order. */
  lemma OrderedEvents(events: seq<MeshEvent>, e: MeshEvent)
    ensures multiset(SortWith(events, ByTimestamp)) == multiset(events)
    ensures forall i, j :: 0 <= i < j < |events| ==>
      SortWith(events, ByTimestamp)[i].timestamp <= SortWith(events, ByTimestamp)[j].timestamp
    ensures ClassOf(SortWith(events, ByTimestamp), e, ByTimestamp) == ClassOf(events, e, ByTimestamp)
  {
    SortSorted(events, ByTimestamp);
    SortStable(events, e, ByTimestamp);
  }

  /** The comparator `(a, b) => b.id - a.id`: larger ids first. */
  predicate ByIdDesc(a: MeshNode, b: MeshNode) {
    b.id - a.id <= 0
  }

  /** The head of `aliveNodes.sort((a, b) => b.id - a.id)`: the first node with
      the largest id. */
  function Highest(a: seq<MeshNode>): (r: Option<MeshNode>)
    ensures r.None? <==> a == []
    ensures r.Some? ==> exists k :: (0 <= k < |a| && a[k] == r.value &&
      (forall j :: 0 <= j < |a| ==> a[j].id <= r.value.id) &&
      (forall j :: 0 <= j < k ==> a[j].id < r.value.id))
  {
    if a == [] then None
    else
      SortHead(a, ByIdDesc);
      Some(SortWith(a, ByIdDesc)[0])
  }

  /** `electLeader(nodes)`: a live node with the largest id, the first such among
      the live nodes, or undefined when no node is alive. Only a filtered copy is
      sorted, so `nodes` keeps its order. */
  function ElectLeader(nodes: seq<MeshNode>): (r: Option<MeshNode>)
    reads nodes
    ensures r.None? <==> forall i :: 0 <= i < |nodes| ==> !nodes[i].alive
    ensures r.Some? ==> r.value in nodes && r.value.alive
    ensures r.Some? ==> forall i :: 0 <= i < |nodes| && nodes[i].alive ==> nodes[i].id <= r.value.id
    ensures r.Some? ==> var a := AliveOf(nodes);
      exists k :: 0 <= k < |a| && a[k] == r.value && forall j :: 0 <= j < k ==> a[j].id < r.value.id
  {
    HighestAlive(nodes);
    Highest(AliveOf(nodes))
  }

  lemma HighestAlive(nodes: seq<MeshNode>)
    ensures var r := Highest(AliveOf(nodes));
      && (r.None? <==> forall i :: 0 <= i < |nodes| ==> !nodes[i].alive)
      && (r.Some? ==> r.value in nodes && r.value.alive)
      && (r.Some? ==> forall i :: 0 <= i < |nodes| && nodes[i].alive ==> nodes[i].id <= r.value.id)
  {
    var a := AliveOf(nodes);
    var r := Highest(a);
    if r.Some? {
      var k :| 0 <= k < |a| && a[k] == r.value && (forall j :: 0 <= j < |a| ==> a[j].id <= r.value.id);
      forall i | 0 <= i < |nodes| && nodes[i].alive
        ensures nodes[i].id <= r.value.id
      {
        var j :| 0 <= j < |a| && a[j] == nodes[i];
      }
    }
  }
}
