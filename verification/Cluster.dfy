/** A cluster of Raft nodes as a transition system. The network is the set of all messages ever
    sent: any of them may be delivered at any time, in any order, any number of times or never.
    A node may crash inside any call, after any of the saves made so far, and then restarts from
    what storage holds; the messages of the interrupted call are lost. A save either completes or
    the node crashes. */
module Cluster {
  import opened RaftTypes
  import opened NodeSpec

  datatype Cluster = Cluster(members: set<NodeId>, nodes: map<NodeId, Node>, net: set<Message>)

  datatype Event =
    | Run(node: NodeId, call: Call)
    | Crash(node: NodeId, call: Call, save: nat)

  /** The state between calls: the outbox has been handed to the network, storage holds one state. */
  ghost function Settle(s: Node): Node
    requires s.saves != []
  {
    s.(outbox := [], saves := [s.saves[|s.saves| - 1]])
  }

  ghost predicate Deliverable(c: Cluster, call: Call) {
    call.OnMessage? ==> call.m in c.net
  }

  ghost predicate Next(c: Cluster, e: Event, c': Cluster) {
    && e.node in c.nodes
    && Deliverable(c, e.call)
    && var s := c.nodes[e.node];
    && var r := Perform(s, e.call);
    && r.saves != []
    && match e
       case Run(n, _) =>
         c' == c.(nodes := c.nodes[n := Settle(r)], net := c.net + Elements(r.outbox))
       case Crash(n, _, k) =>
         && k < |r.saves|
         && Recoverable(n, s.peers, r.saves[k])
         && c' == c.(nodes := c.nodes[n := Recovered(n, s.peers, r.saves[k])])
  }

  /** Every node has the same membership and starts from empty storage. */
  ghost predicate Init(c: Cluster) {
    && c.members != {}
    && c.nodes.Keys == c.members
    && c.net == {}
    && (forall n | n in c.nodes ::
          && ValidConfig(n, c.nodes[n].peers)
          && c.nodes[n] == Recovered(n, c.nodes[n].peers, HardState(0, None, []))
          && c.nodes[n].Members() == c.members)
  }

  ghost predicate Connected(c: Cluster, c': Cluster) {
    exists e :: Next(c, e, c')
  }

  ghost predicate IsRun(run: seq<Cluster>) {
    && run != []
    && Init(run[0])
    && (forall i | 0 <= i < |run| - 1 :: Connected(run[i], run[i + 1]))
  }
}
