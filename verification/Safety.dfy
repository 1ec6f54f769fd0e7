/** The safety theorems of the cluster, over every run. */
module Safety {
  import opened RaftTypes
  import opened NodeSpec
  import opened Cluster
  import opened History
  import opened Growth
  import opened Completeness
  import opened Leadership
  import opened Replication
  import opened Acceptance
  import opened Persistence
  import opened Calls

  // ---- The invariant holds in every state of every run ------------------------------------------

  lemma InitSound(c: Cluster) returns (h: History)
    requires Init(c)
    ensures ClusterInv(c, h)
  {
    h := History(map[], map[], map[], map[], map[]);
    forall n | n in c.nodes
      ensures c.nodes[n].id == n && NodeInv(c.nodes[n], h, c.members)
    {
    }
  }

  lemma NodeMembers(s: Node, h: History, members: set<NodeId>)
    requires NodeInv(s, h, members)
    ensures s.Members() == members && s.saves != [] && s.saves[|s.saves| - 1] == s.Hard()
  {
  }

  /** Settling a node between calls keeps its invariant. */
  lemma SettledNodeOk(s: Node, h: History, members: set<NodeId>)
    requires NodeInv(s, h, members) && s.saves != []
    ensures NodeInv(Settle(s), h, members)
  {
    hide Traced, Ascending, Retains, Settled, PastOk, VoteOk;
    PastSame(s, Settle(s), h);
    assert Settle(s).Members() == s.Members();
  }

  /** The cluster after one node changed and the history grew by that node's hand. */
  lemma ReplacedOk(c: Cluster, h: History, n: NodeId, s': Node, more: set<Message>, h': History)
    requires ClusterInv(c, h) && n in c.nodes
    requires HistoryInv(h', c.members) && Extends(h, h', n)
    requires s'.id == n && NodeInv(s', h', c.members) && s'.outbox == [] && |s'.saves| == 1
    requires forall m | m in more :: MessageInv(m, h', c.members)
    ensures ClusterInv(c.(nodes := c.nodes[n := s'], net := c.net + more), h')
  {
    hide HistoryInv, NodeInv, MessageInv, Extends, AcksOk;
    InvAcks(h, c.members);
    ExtendsGrows(h, h', n);
    forall k | k in c.nodes && k != n
      ensures NodeInv(c.nodes[k], h', c.members)
    {
      NodeKept(c.nodes[k], h, h', n, c.members);
    }
    forall m | m in c.net
      ensures MessageInv(m, h', c.members)
    {
      MessageKept(m, h, h', c.members);
    }
  }

  lemma StepSound(c: Cluster, h: History, e: Event, c': Cluster) returns (h': History)
    requires ClusterInv(c, h) && Next(c, e, c')
    ensures ClusterInv(c', h') && Grows(h, h')
  {
    hide HistoryInv, NodeInv, MessageInv, Extends, Grows, Perform, Recoverable, Recovered;
    var n, s := e.node, c.nodes[e.node];
    NodeMembers(s, h, c.members);
    match e
    case Run(_, call) =>
      h' := PerformSound(s, h, c.members, call);
      var r := Perform(s, call);
      CallSaves(s, call);
      NodeMembers(r, h', c.members);
      SettledNodeOk(r, h', c.members);
      ReplacedOk(c, h, n, Settle(r), Elements(r.outbox), h');
      ExtendsGrows(h, h', n);
    case Crash(_, call, k) =>
      h' := CrashSound(s, h, c.members, call, k);
      var s' := Recovered(n, s.peers, Perform(s, call).saves[k]);
      RecoveredShape(n, s.peers, Perform(s, call).saves[k]);
      ReplacedOk(c, h, n, s', {}, h');
      assert c' == c.(nodes := c.nodes[n := s'], net := c.net + {});
      ExtendsGrows(h, h', n);
  }

  lemma RecoveredShape(n: NodeId, peers: seq<NodeId>, hard: HardState)
    ensures var s := Recovered(n, peers, hard); s.id == n && s.outbox == [] && |s.saves| == 1
  {
  }

  /** One history for a whole run: every state of the run fits a history that grew into it. */
  lemma {:induction false} RunSound(run: seq<Cluster>) returns (hs: seq<History>)
    requires IsRun(run)
    ensures |hs| == |run|
    ensures forall i | 0 <= i < |run| :: ClusterInv(run[i], hs[i]) && Grows(hs[i], hs[|hs| - 1])
    ensures forall i | 0 <= i < |run| :: run[i].members == run[0].members
  {
    hide ClusterInv, Grows, Next;
    if |run| == 1 {
      var h := InitSound(run[0]);
      GrowsItself(h);
      hs := [h];
    } else {
      var front := run[..|run| - 1];
      assert forall i | 0 <= i < |front| - 1 :: Connected(front[i], front[i + 1]) by {
        forall i | 0 <= i < |front| - 1
          ensures Connected(front[i], front[i + 1])
        {
          assert Connected(run[i], run[i + 1]);
        }
      }
      var before := RunSound(front);
      var c, c' := run[|run| - 2], run[|run| - 1];
      assert Connected(run[|run| - 2], run[|run| - 2 + 1]);
      var e :| Next(c, e, c');
      var h := before[|before| - 1];
      assert front[|front| - 1] == c;
      var h' := StepSound(c, h, e, c');
      MembersKept(c, e, c');
      hs := before + [h'];
      GrowsItself(h');
      forall i | 0 <= i < |before|
        ensures Grows(before[i], h')
      {
        GrowsTrans(before[i], h, h');
      }
    }
  }

  lemma GrowsItself(h: History)
    ensures Grows(h, h)
  {
  }

  lemma MembersKept(c: Cluster, e: Event, c': Cluster)
    requires Next(c, e, c')
    ensures c'.members == c.members
  {
  }

  /** What remains true of a node's state forever after. */
  ghost predicate Recorded(s: Node, h: History, members: set<NodeId>) {
    && s.id in members && s.commit <= |s.log|
    && Traced(s.log, h)
    && Settled(h, s.log, s.commit, s.term, members)
    && s.published == Published(s.log, s.commit)
    && (s.leader.Some? ==> s.term in h.reigns && h.reigns[s.term].leader == s.leader.value)
    && (s.role == Leader ==>
          && s.leader == Some(s.id)
          && s.term in h.reigns && h.reigns[s.term].leader == s.id
          && |h.reigns[s.term].start| <= |s.log|
          && Agree(s.log, h.reigns[s.term].log, |s.log|))
  }

  lemma RecordedLater(s: Node, h: History, h': History, members: set<NodeId>)
    requires HistoryInv(h, members) && NodeInv(s, h, members) && Grows(h, h')
    ensures Recorded(s, h', members)
  {
    hide Ascending, Traced, Retains, PastOk, Chosen, VotesOk, BallotsOk, AcksOk, BallotsRetain;
    TracedGrows(s.log, h, h');
    SettledGrows(h, h', s.log, s.commit, s.term, s.term, members);
    if s.role == Leader {
      assert ReignOk(h, s.term, members);
      AgreeGrows(h, h', s.term, s.log, |s.log|);
    }
  }

  lemma InvParts(c: Cluster, h: History)
    requires ClusterInv(c, h)
    ensures HistoryInv(h, c.members)
  {
  }

  lemma NodeOf(c: Cluster, h: History, n: NodeId)
    requires ClusterInv(c, h) && n in c.nodes
    ensures HistoryInv(h, c.members) && c.nodes[n].id == n && NodeInv(c.nodes[n], h, c.members)
  {
  }

  /** Any two node states of a run, at whatever times, fit one history. */
  lemma TwoStates(run: seq<Cluster>, i: nat, a: NodeId, j: nat, b: NodeId) returns (h: History)
    requires IsRun(run) && i < |run| && j < |run| && a in run[i].nodes && b in run[j].nodes
    ensures HistoryInv(h, run[0].members)
    ensures run[i].nodes[a].id == a && Recorded(run[i].nodes[a], h, run[0].members)
    ensures run[j].nodes[b].id == b && Recorded(run[j].nodes[b], h, run[0].members)
  {
    hide ClusterInv, HistoryInv, NodeInv, Grows, Recorded, IsRun;
    var hs := RunSound(run);
    h := hs[|hs| - 1];
    InvParts(run[|run| - 1], h);
    NodeOf(run[i], hs[i], a);
    NodeOf(run[j], hs[j], b);
    RecordedLater(run[i].nodes[a], hs[i], h, run[0].members);
    RecordedLater(run[j].nodes[b], hs[j], h, run[0].members);
  }

  // ---- Theorems over runs -----------------------------------------------------------------------

  /** Election Safety: over a whole run there is at most one leader per term, and all nodes that
      know a leader of a term know the same one. */
  lemma ElectionSafety(run: seq<Cluster>, i: nat, a: NodeId, j: nat, b: NodeId)
    requires IsRun(run) && i < |run| && j < |run| && a in run[i].nodes && b in run[j].nodes
    requires run[i].nodes[a].term == run[j].nodes[b].term
    ensures run[i].nodes[a].role == Leader && run[j].nodes[b].role == Leader ==> a == b
    ensures run[i].nodes[a].role == Leader && run[j].nodes[b].leader.Some? ==> run[j].nodes[b].leader == Some(a)
    ensures run[i].nodes[a].leader.Some? && run[j].nodes[b].leader.Some? ==>
              run[i].nodes[a].leader == run[j].nodes[b].leader
  {
    hide HistoryInv, IsRun, Traced, Settled;
    var h := TwoStates(run, i, a, j, b);
  }

  /** Log Matching: two logs of a run, at whatever times, that hold entries of the same index and
      term are identical up to that index. */
  lemma LogMatching(run: seq<Cluster>, i: nat, a: NodeId, j: nat, b: NodeId, index: nat)
    requires IsRun(run) && i < |run| && j < |run| && a in run[i].nodes && b in run[j].nodes
    requires 0 < index <= |run[i].nodes[a].log| && index <= |run[j].nodes[b].log|
    requires TermAt(run[i].nodes[a].log, index) == TermAt(run[j].nodes[b].log, index)
    ensures Agree(run[i].nodes[a].log, run[j].nodes[b].log, index)
  {
    hide HistoryInv, IsRun, Traced, Settled;
    var h := TwoStates(run, i, a, j, b);
    TracedMatch(run[i].nodes[a].log, run[j].nodes[b].log, index - 1, h);
  }

  /** Leader Completeness: what a leader has committed is in the log of every leader of every later
      term, whichever of the two states comes first. */
  lemma LeaderCompleteness(run: seq<Cluster>, i: nat, a: NodeId, j: nat, b: NodeId)
    requires IsRun(run) && i < |run| && j < |run| && a in run[i].nodes && b in run[j].nodes
    requires run[i].nodes[a].role == Leader && run[j].nodes[b].role == Leader
    requires run[i].nodes[a].term < run[j].nodes[b].term
    ensures Agree(run[i].nodes[a].log, run[j].nodes[b].log, run[i].nodes[a].commit)
  {
    hide HistoryInv, IsRun, Traced, Settled;
    var h := TwoStates(run, i, a, j, b);
    var s, t := run[i].nodes[a], run[j].nodes[b];
    var r := h.reigns[t.term];
    SettledCarried(h, run[0].members, s.log, s.commit, s.term, t.term);
    StartHeld(h, run[0].members, t.term, s.commit, s.log);
    AgreeLess(t.log, r.log, |t.log|, s.commit);
  }

  /** State Machine Safety: any two nodes of a run, or one node at two times with restarts in
      between, agree on every entry up to the smaller of their commit indexes. */
  lemma StateMachineSafety(run: seq<Cluster>, i: nat, a: NodeId, j: nat, b: NodeId)
    requires IsRun(run) && i < |run| && j < |run| && a in run[i].nodes && b in run[j].nodes
    ensures Agree(run[i].nodes[a].log, run[j].nodes[b].log, Min(run[i].nodes[a].commit, run[j].nodes[b].commit))
  {
    hide HistoryInv, IsRun, Traced, Settled;
    var h := TwoStates(run, i, a, j, b);
    var s, t := run[i].nodes[a], run[j].nodes[b];
    SettledAgree(h, run[0].members, s.log, s.commit, s.term, t.log, t.commit, t.term);
  }
}
