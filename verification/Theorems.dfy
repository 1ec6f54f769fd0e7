/** Further consequences of the invariant, over every run. */
module Theorems {
  import opened RaftTypes
  import opened NodeSpec
  import opened Cluster
  import opened History
  import opened Growth
  import opened Completeness
  import opened Elections
  import opened Replication
  import opened Acceptance
  import opened Persistence
  import opened Calls
  import opened Safety
  import opened CommitScan
  import opened Lifetime
  import opened Repair
  import opened Duties

  lemma Reached(run: seq<Cluster>, i: nat) returns (h: History)
    requires IsRun(run) && i < |run|
    ensures ClusterInv(run[i], h)
  {
    hide ClusterInv, Grows, IsRun;
    var hs := RunSound(run);
    h := hs[i];
  }

  /** No two committed records of a run with one index differ, whichever nodes published them and
      whatever restarts lie between. */
  lemma CommittedRecordsAgree(run: seq<Cluster>, i: nat, a: NodeId, e: CommittedEntry,
                              j: nat, b: NodeId, f: CommittedEntry)
    requires IsRun(run) && i < |run| && j < |run| && a in run[i].nodes && b in run[j].nodes
    requires e in run[i].nodes[a].published && f in run[j].nodes[b].published && e.index == f.index
    ensures e == f
  {
    hide HistoryInv, IsRun, Traced, Settled, Published;
    var h := TwoStates(run, i, a, j, b);
    var s, t := run[i].nodes[a], run[j].nodes[b];
    StateMachineSafety(run, i, a, j, b);
    PublishedAt(s.log, s.commit, e);
    PublishedAt(t.log, t.commit, f);
    AgreeAt(s.log, t.log, Min(s.commit, t.commit), e.index - 1);
  }

  // ---- Requests in flight -----------------------------------------------------------------------

  /** A request of a run and the history at its end. */
  lemma RequestRecorded(run: seq<Cluster>, hs: seq<History>, j: nat, m: Message)
    requires |hs| == |run| && j < |run| && m in run[j].net && m.rpc.AppendRequest?
    requires ClusterInv(run[j], hs[j]) && Grows(hs[j], hs[|hs| - 1])
    ensures RequestOk(m, hs[|hs| - 1], run[j].members)
  {
    hide HistoryInv, NodeInv, Grows;
    MessageKept(m, hs[j], hs[|hs| - 1], run[j].members);
  }

  lemma NodeRecorded(run: seq<Cluster>, hs: seq<History>, i: nat, a: NodeId)
    requires |hs| == |run| && i < |run| && a in run[i].nodes
    requires ClusterInv(run[i], hs[i]) && Grows(hs[i], hs[|hs| - 1])
    ensures Recorded(run[i].nodes[a], hs[|hs| - 1], run[i].members)
  {
    hide ClusterInv, HistoryInv, NodeInv, Grows, Recorded;
    NodeOf(run[i], hs[i], a);
    RecordedLater(run[i].nodes[a], hs[i], hs[|hs| - 1], run[i].members);
  }

  /** The log a request stands for, up to its last entry. */
  lemma ImpliedLog(h: History, members: set<NodeId>, m: Message) returns (log: seq<LogEntry>)
    requires HistoryInv(h, members) && m.rpc.AppendRequest? && RequestOk(m, h, members)
    ensures |log| == m.rpc.prevIndex + |m.rpc.entries| && log[m.rpc.prevIndex..] == m.rpc.entries
    ensures TermAt(log, m.rpc.prevIndex) == m.rpc.prevTerm
    ensures Traced(log, h)
  {
    hide HistoryInv, Traced, Settled;
    var full := h.reigns[m.rpc.term].log;
    log := full[..m.rpc.prevIndex + |m.rpc.entries|];
    assert Agree(log, full, |log|);
    ReignPrefix(h, members, m.rpc.term, log);
  }

  /** Log Matching against a request in flight: a log with the same term at one of its indexes holds
      the request's entries up to there and its previous term. */
  lemma LogMatchesRequest(run: seq<Cluster>, i: nat, a: NodeId, j: nat, m: Message, k: nat)
    requires IsRun(run) && i < |run| && j < |run| && a in run[i].nodes
    requires m in run[j].net && m.rpc.AppendRequest? && k < |m.rpc.entries|
    requires m.rpc.prevIndex + k < |run[i].nodes[a].log|
    requires run[i].nodes[a].log[m.rpc.prevIndex + k].term == m.rpc.entries[k].term
    ensures var log := run[i].nodes[a].log;
            && log[m.rpc.prevIndex..m.rpc.prevIndex + k + 1] == m.rpc.entries[..k + 1]
            && TermAt(log, m.rpc.prevIndex) == m.rpc.prevTerm
  {
    hide ClusterInv, HistoryInv, Grows, IsRun, RequestOk, Traced, Settled;
    var hs := RunSound(run);
    InvParts(run[|run| - 1], hs[|hs| - 1]);
    RequestRecorded(run, hs, j, m);
    NodeRecorded(run, hs, i, a);
    var other := ImpliedLog(hs[|hs| - 1], run[0].members, m);
    var log, prev := run[i].nodes[a].log, m.rpc.prevIndex;
    assert other[prev + k] == m.rpc.entries[k];
    TracedMatch(log, other, prev + k, hs[|hs| - 1]);
    assert log[prev..prev + k + 1] == log[..prev + k + 1][prev..];
    assert m.rpc.entries[..k + 1] == other[..prev + k + 1][prev..];
    if prev > 0 {
      AgreeAt(log, other, prev + k + 1, prev - 1);
    }
  }

  /** Log Matching between two requests in flight. */
  lemma RequestsMatch(run: seq<Cluster>, i: nat, m: Message, j: nat, n: Message, index: nat)
    requires IsRun(run) && i < |run| && j < |run|
    requires m in run[i].net && m.rpc.AppendRequest? && n in run[j].net && n.rpc.AppendRequest?
    requires m.rpc.prevIndex <= n.rpc.prevIndex <= index
    requires index < m.rpc.prevIndex + |m.rpc.entries| && index < n.rpc.prevIndex + |n.rpc.entries|
    requires m.rpc.entries[index - m.rpc.prevIndex].term == n.rpc.entries[index - n.rpc.prevIndex].term
    ensures m.rpc.entries[n.rpc.prevIndex - m.rpc.prevIndex..index + 1 - m.rpc.prevIndex]
         == n.rpc.entries[..index + 1 - n.rpc.prevIndex]
    ensures n.rpc.prevTerm == if n.rpc.prevIndex == m.rpc.prevIndex then m.rpc.prevTerm
                              else m.rpc.entries[n.rpc.prevIndex - m.rpc.prevIndex - 1].term
  {
    hide ClusterInv, HistoryInv, Grows, IsRun, RequestOk, Traced;
    var hs := RunSound(run);
    var h, p, q := hs[|hs| - 1], m.rpc.prevIndex, n.rpc.prevIndex;
    InvParts(run[|run| - 1], h);
    RequestRecorded(run, hs, i, m);
    RequestRecorded(run, hs, j, n);
    var a := ImpliedLog(h, run[0].members, m);
    var b := ImpliedLog(h, run[0].members, n);
    assert a[index] == m.rpc.entries[index - p] && b[index] == n.rpc.entries[index - q];
    TracedMatch(a, b, index, h);
    assert m.rpc.entries[q - p..index + 1 - p] == a[..index + 1][q..];
    assert n.rpc.entries[..index + 1 - q] == b[..index + 1][q..];
    if q > 0 {
      AgreeAt(a, b, index + 1, q - 1);
    }
  }

  // ---- What a delivery cannot do ----------------------------------------------------------------

  lemma DeliveryFacts(run: seq<Cluster>, i: nat, n: NodeId, m: Message) returns (h: History)
    requires IsRun(run) && i < |run| && n in run[i].nodes && m in run[i].net
    ensures HistoryInv(h, run[i].members) && MessageInv(m, h, run[i].members)
    ensures NodeInv(run[i].nodes[n], h, run[i].members)
    ensures Sound(AdoptTerm(run[i].nodes[n], m.rpc.term), h, run[i].members)
  {
    hide IsRun, HistoryInv, NodeInv, MessageInv;
    h := Reached(run, i);
    AdoptTermSound(run[i].nodes[n], h, run[i].members, m.rpc.term);
  }

  /** The guards against damaged logs never fire: in a reachable cluster no delivery throws, none
      finds a conflict at or below the commit index, and no leader is told to step down by a
      replication request of its own term. */
  lemma {:induction false} DefensiveBranchesAreDead(run: seq<Cluster>, i: nat, n: NodeId, m: Message)
    requires IsRun(run) && i < |run| && n in run[i].nodes && m in run[i].net
    requires m.rpc.AppendRequest? && Accepts(run[i].nodes[n], m)
    ensures !Throws(run[i].nodes[n], m)
    ensures var s := Following(AdoptTerm(run[i].nodes[n], m.rpc.term), m.rpc.leader);
            m.rpc.term >= run[i].nodes[n].term && PrevMatches(s.log, m.rpc) ==>
              var o := Compare(s.log, m.rpc.prevIndex, m.rpc.entries, 0);
              o.Conflict? ==> m.rpc.prevIndex + o.count >= s.commit
    ensures EntriesFit(m.rpc) && m.rpc.leader == m.from
    ensures !(run[i].nodes[n].role == Leader && m.rpc.term == run[i].nodes[n].term)
  {
    hide IsRun, HistoryInv, Compare, Settled, Traced;
    var h := DeliveryFacts(run, i, n, m);
    var c := run[i];
    var s1 := AdoptTerm(c.nodes[n], m.rpc.term);
    RequestEntriesFit(h, c.members, m);
    if m.rpc.term >= c.nodes[n].term {
      FollowingSound(s1, h, c.members, m);
      var s2 := Following(s1, m.rpc.leader);
      if PrevMatches(s2.log, m.rpc) {
        NodeSettled(s2, h, c.members);
        NoDamage(s2, m, h, c.members);
      }
    }
  }

  lemma RequestEntriesFit(h: History, members: set<NodeId>, m: Message)
    requires HistoryInv(h, members) && m.rpc.AppendRequest? && RequestOk(m, h, members)
    ensures EntriesFit(m.rpc)
  {
    hide VotesOk, BallotsOk, AcksOk, BallotsRetain, Traced, Settled;
    assert ReignOk(h, m.rpc.term, members);
    var log := h.reigns[m.rpc.term].log;
    forall e | e in m.rpc.entries
      ensures 0 < e.term <= m.rpc.term
    {
      var k :| 0 <= k < |m.rpc.entries| && m.rpc.entries[k] == e;
      assert e == log[m.rpc.prevIndex + k];
    }
  }

  lemma {:induction false} AcknowledgeRaises(s: Node, from: NodeId, req: Rpc)
    requires req.AppendRequest?
    ensures var s' := Acknowledge(s, from, req);
            s'.log == s.log && (s'.commit > s.commit ==> s'.commit == Min(req.leaderCommit, |s'.log|))
  {
    hide NewlyPublished;
  }

  /** Only an accepted request raises a follower's commit index. */
  lemma {:induction false} RaisedByAccept(s: Node, from: NodeId, req: Rpc)
    requires req.AppendRequest? && Reconcile(s, from, req).commit > s.commit
    ensures var s' := Reconcile(s, from, req);
            && PrevMatches(s.log, req)
            && s'.log == Merged(s.log, req)
            && s'.commit == Min(req.leaderCommit, |s'.log|)
  {
    hide Compare, ConflictStart, Acknowledge;
    if PrevMatches(s.log, req) {
      CompareBounds(s.log, req.prevIndex, req.entries, 0);
      AcknowledgeRaises(Install(s, req, Compare(s.log, req.prevIndex, req.entries, 0).count), from, req);
    }
  }

  lemma {:induction false} RaisedByRequest(s: Node, from: NodeId, req: Rpc)
    requires req.AppendRequest? && HandleAppendRequest(s, from, req).commit > s.commit && req.term <= s.term
    ensures var s' := HandleAppendRequest(s, from, req);
            && s.term == req.term && PrevMatches(s.log, req)
            && s'.log == Merged(s.log, req)
            && s'.commit == Min(req.leaderCommit, |s'.log|)
  {
    hide Reconcile, Merged, EntriesFit;
    RaisedByAccept(Following(s, req.leader), from, req);
  }

  /** The log of a follower whose commit index a request raised, seen from that request's leader. */
  lemma {:induction false} RaisedLog(s: Node, m: Message, h: History, members: set<NodeId>)
    requires HistoryInv(h, members) && LogOk(s, h) && m.rpc.AppendRequest? && RequestOk(m, h, members)
    requires Receive(s, m).commit > s.commit
    ensures Receive(s, m).commit == m.rpc.leaderCommit <= |Receive(s, m).log|
    ensures m.rpc.term in h.reigns && Agree(Receive(s, m).log, h.reigns[m.rpc.term].log, m.rpc.leaderCommit)
  {
    hide HistoryInv, HandleAppendRequest, Merged, Settled, Traced, Ascending;
    var s1 := AdoptTerm(s, m.rpc.term);
    RaisedByRequest(s1, m.from, m.rpc);
    var full := h.reigns[m.rpc.term].log;
    PrefixShared(s1, m, h, members);
    MergedReaches(s1.log, m.rpc, full);
    AgreeLess(Receive(s, m).log, full, m.rpc.prevIndex + |m.rpc.entries|, m.rpc.leaderCommit);
  }

  /** Clamping the commit index to the whole log is safe: no request commits past its own last entry,
      so a follower that raises its commit index raises it to exactly what the leader sent, within
      the entries of that request, and its log then agrees so far with that of every node that is
      ever leader of that term. */
  lemma CommitClampSafe(run: seq<Cluster>, i: nat, n: NodeId, m: Message, j: nat, b: NodeId)
    requires IsRun(run) && i < |run| && n in run[i].nodes && m in run[i].net && m.rpc.AppendRequest?
    requires j < |run| && b in run[j].nodes
    ensures m.rpc.leaderCommit <= m.rpc.prevIndex + |m.rpc.entries|
    ensures var s, s' := run[i].nodes[n], Receive(run[i].nodes[n], m);
            s'.commit > s.commit ==>
              && s'.commit == m.rpc.leaderCommit <= |s'.log|
              && (run[j].nodes[b].role == Leader && run[j].nodes[b].term == m.rpc.term ==>
                    Agree(s'.log, run[j].nodes[b].log, Min(s'.commit, |run[j].nodes[b].log|)))
  {
    hide ClusterInv, HistoryInv, NodeInv, Grows, IsRun, RequestOk, Traced, Settled, Receive, LogOk;
    var hs := RunSound(run);
    var h, s, t := hs[i], run[i].nodes[n], run[j].nodes[b];
    NodeOf(run[i], h, n);
    MessageOf(run[i], h, m);
    var s' := Receive(s, m);
    if s'.commit > s.commit {
      NodeSettled(s, h, run[i].members);
      RaisedLog(s, m, h, run[i].members);
      NodeRecorded(run, hs, j, b);
      AgreeGrows(h, hs[|hs| - 1], m.rpc.term, s'.log, s'.commit);
      if t.role == Leader && t.term == m.rpc.term {
        var full, k := hs[|hs| - 1].reigns[t.term].log, Min(s'.commit, |t.log|);
        AgreeLess(s'.log, full, s'.commit, k);
        AgreeLess(t.log, full, |t.log|, k);
      }
    }
  }

  /** Followers do commit: any delivery of a request that the node's term has not outgrown and whose
      previous entry matches leaves the commit index at the larger of the node's and the leader's. */
  lemma {:induction false} CommitsInRun(run: seq<Cluster>, i: nat, n: NodeId, m: Message)
    requires IsRun(run) && i < |run| && n in run[i].nodes && m in run[i].net && m.rpc.AppendRequest?
    requires Accepts(run[i].nodes[n], m) && m.rpc.term >= run[i].nodes[n].term
    requires PrevMatches(run[i].nodes[n].log, m.rpc)
    ensures var s, s' := run[i].nodes[n], Receive(run[i].nodes[n], m);
            && s'.commit == Max(s.commit, m.rpc.leaderCommit)
            && s'.commit <= |s'.log| && s'.published == Published(s'.log, s'.commit)
  {
    hide ClusterInv, HistoryInv, NodeInv, MessageInv, IsRun, Compare, HandleAppendRequest, EntriesFit, Published,
      Settled;
    DefensiveBranchesAreDead(run, i, n, m);
    var h := Reached(run, i);
    var s := run[i].nodes[n];
    NodeOf(run[i], h, n);
    NodeWellFormed(s, h, run[i].members);
    MessageOf(run[i], h, m);
    ReceiveFine(s, m);
    var s1 := AdoptTerm(s, m.rpc.term);
    assert Acknowledges(s1, m.from, m.rpc);
    CommitIsFollowed(s1, m.from, m.rpc);
    AcknowledgedReach(s1, m.from, m.rpc);
  }

  lemma NodeWellFormed(s: Node, h: History, members: set<NodeId>)
    requires NodeInv(s, h, members)
    ensures WellFormed(s)
  {
    hide WellFormed;
  }

  /** An accepted request leaves a log that reaches its last entry. */
  lemma {:induction false} AcknowledgedReach(s: Node, from: NodeId, req: Rpc)
    requires req.AppendRequest? && Acknowledges(s, from, req)
    ensures |HandleAppendRequest(s, from, req).log| >= req.prevIndex + |req.entries|
  {
    hide Compare, Acknowledge, HandleAppendRequest;
    AcknowledgedState(s, from, req);
    var f := Following(s, req.leader);
    hide Following;
    InstallHolds(f, req);
    AcknowledgeSends(Install(f, req, Compare(s.log, req.prevIndex, req.entries, 0).count), from, req);
  }

  lemma MessageOf(c: Cluster, h: History, m: Message)
    requires ClusterInv(c, h) && m in c.net
    ensures MessageInv(m, h, c.members)
    ensures m.rpc.AppendRequest? ==> m.rpc.leaderCommit <= m.rpc.prevIndex + |m.rpc.entries|
  {
  }

  // ---- Acknowledgements and recovery ------------------------------------------------------------

  /** Acknowledgements stay true: while leader and follower are in the same term, what the leader
      believes the follower to hold is in the follower's log and storage. */
  lemma AcknowledgementsHold(run: seq<Cluster>, i: nat, a: NodeId, p: NodeId)
    requires IsRun(run) && i < |run| && a in run[i].nodes && p in run[i].nodes[a].peers
    requires run[i].nodes[a].role == Leader
    ensures p in run[i].nodes && p in run[i].nodes[a].matched
    ensures run[i].nodes[p].term == run[i].nodes[a].term ==>
              && Agree(run[i].nodes[a].log, run[i].nodes[p].log, run[i].nodes[a].matched[p])
              && run[i].nodes[p].saves == [run[i].nodes[p].Hard()]
  {
    hide IsRun, ClusterInv, HistoryInv, NodeInv, RetainsOk;
    var h := Reached(run, i);
    NodeOf(run[i], h, a);
    LeaderView(run[i].nodes[a], h, run[i].members, p);
    NodeFiled(run[i], h, p);
    var s, t := run[i].nodes[a], run[i].nodes[p];
    NodeRetains(t, h, run[i].members);
    if t.term == s.term && s.matched[p] > 0 {
      HeldInTerm(t, h, s.matched[p]);
    }
  }

  /** Between calls a node's storage holds one state, the one in memory. */
  lemma NodeFiled(c: Cluster, h: History, n: NodeId)
    requires ClusterInv(c, h) && n in c.members
    ensures n in c.nodes && c.nodes[n].id == n && NodeInv(c.nodes[n], h, c.members)
    ensures c.nodes[n].saves == [c.nodes[n].Hard()]
  {
    hide HistoryInv, Traced, Ascending, Settled, Published;
    assert NodeInv(c.nodes[n], h, c.members);
  }

  lemma HeldInTerm(t: Node, h: History, m: nat)
    requires RetainsOk(t, h) && Slot(t.term, t.id) in h.acks && m <= h.acks[Slot(t.term, t.id)]
    ensures t.term in h.reigns && Agree(h.reigns[t.term].log, t.log, m)
  {
    var a := Slot(t.term, t.id);
    assert Retains(h, a, t.log, t.term + 1);
    assert Carried(h, t.term, t.term + 1, m);
  }

  /** No delivery of any message of the run, however delayed, repeated or reordered, makes a follower
      that stays in the leader's term lose what it acknowledged. */
  lemma AcknowledgementsSurvive(run: seq<Cluster>, i: nat, a: NodeId, p: NodeId, m: Message)
    requires IsRun(run) && i < |run| && a in run[i].nodes && p in run[i].nodes[a].peers
    requires run[i].nodes[a].role == Leader && m in run[i].net
    requires p in run[i].nodes && Receive(run[i].nodes[p], m).term == run[i].nodes[a].term
    ensures p in run[i].nodes[a].matched
    ensures Agree(run[i].nodes[a].log, Receive(run[i].nodes[p], m).log, run[i].nodes[a].matched[p])
  {
    hide ClusterInv, HistoryInv, NodeInv, MessageInv, Extends, OutboxOk, RetainsOk, Receive, IsRun;
    var h := Reached(run, i);
    var c, s, t := run[i], run[i].nodes[a], run[i].nodes[p];
    NodeOf(c, h, a);
    NodeOf(c, h, p);
    MessageOf(c, h, m);
    LeaderView(s, h, c.members, p);
    assert Sound(t, h, c.members) && t.Members() == c.members by {
      NodeMembers(t, h, c.members);
      QuietNode(c, h, p);
    }
    var h' := ReceiveSound(t, h, c.members, m);
    InvAcks(h, c.members);
    NodeKept(s, h, h', p, c.members);
    LeaderView(s, h', c.members, p);
    CallSaves(t, OnMessage(m));
    var t' := Receive(t, m);
    NodeRetains(t', h', c.members);
    if s.matched[p] > 0 {
      HeldInTerm(t', h', s.matched[p]);
    }
  }

  lemma QuietNode(c: Cluster, h: History, n: NodeId)
    requires ClusterInv(c, h) && n in c.nodes
    ensures OutboxOk(c.nodes[n], h, c.members)
  {
  }

  lemma NodeRetains(s: Node, h: History, members: set<NodeId>)
    requires NodeInv(s, h, members)
    ensures RetainsOk(s, h)
  {
  }

  lemma LeaderView(s: Node, h: History, members: set<NodeId>, p: NodeId)
    requires NodeInv(s, h, members) && s.role == Leader && p in s.peers
    ensures p != s.id && p in members && p in s.matched
    ensures s.term in h.reigns && h.reigns[s.term].log == s.log
    ensures 0 < s.matched[p] ==> Slot(s.term, p) in h.acks && s.matched[p] <= h.acks[Slot(s.term, p)]
  {
    assert p in s.Members() && Tracks(s, p);
  }

  /** Whatever a node saves in the middle or at the end of a call, the checks of a restart accept. */
  lemma RecoveryAccepts(run: seq<Cluster>, i: nat, n: NodeId, call: Call, k: nat)
    requires IsRun(run) && i < |run| && n in run[i].nodes && Deliverable(run[i], call)
    requires k < |Perform(run[i].nodes[n], call).saves|
    ensures Recoverable(n, run[i].nodes[n].peers, Perform(run[i].nodes[n], call).saves[k])
  {
    hide IsRun, HistoryInv, NodeInv, MessageInv, Perform, Recoverable, Recovered;
    var h := Reached(run, i);
    NodeMembers(run[i].nodes[n], h, run[i].members);
    var h' := CrashSound(run[i].nodes[n], h, run[i].members, call, k);
  }

  // ---- Commit scan and repair -------------------------------------------------------------------

  /** In every reachable state every leader has committed all it can. */
  lemma {:induction false} IdleInRun(run: seq<Cluster>, i: nat, a: NodeId)
    requires IsRun(run) && i < |run| && a in run[i].nodes
    ensures Idle(run[i].nodes[a])
    decreases i
  {
    hide CommitTarget, Perform, Recoverable, Replicated;
    if i > 0 {
      assert Connected(run[i - 1], run[i]);
      var e :| Next(run[i - 1], e, run[i]);
      IdleInRun(run, i - 1, a);
      if e.Run? && e.node == a {
        var s := run[i - 1].nodes[a];
        CallScanned(s, e.call);
        ScannedSame(s, Perform(s, e.call), Settle(Perform(s, e.call)));
      }
    }
  }

  /** What any call of any run commits on a leader: the quorum-th largest of the peers' indexes and its
      own last index, as the call leaves them, if that is new and of the current term; in other words
      the largest index of the current term held by a majority of the members. This covers the
      scans after an election, a proposal and an acknowledgement, and says of every other call that
      there was nothing to commit. */
  lemma {:induction false} CommitScanInRun(run: seq<Cluster>, i: nat, a: NodeId, call: Call)
    requires IsRun(run) && i < |run| && a in run[i].nodes && Deliverable(run[i], call)
    requires Perform(run[i].nodes[a], call).role == Leader
    ensures var s, s' := run[i].nodes[a], Perform(run[i].nodes[a], call);
            var v := QuorumIndex(s');
            && v <= |s'.log|
            && s'.commit == if v > s.commit && TermAt(s'.log, v) == s'.term then v else s.commit
    ensures LargestOnMajority(Perform(run[i].nodes[a], call), run[i].nodes[a].commit,
                              Perform(run[i].nodes[a], call).commit)
  {
    hide ClusterInv, IsRun, HistoryInv, NodeInv, MessageInv, Perform, QuorumIndex, Idle, Scanned, OutboxOk, Extends,
      LargestOnMajority;
    IdleInRun(run, i, a);
    var h := Reached(run, i);
    var c, s := run[i], run[i].nodes[a];
    NodeOf(c, h, a);
    NodeMembers(s, h, c.members);
    QuietNode(c, h, a);
    if call.OnMessage? {
      MessageOf(c, h, call.m);
    }
    var h' := PerformSound(s, h, c.members, call);
    LeaderLog(Perform(s, call), h', c.members);
    CallScanned(s, call);
    CommittedByRank(s, Perform(s, call));
    CommittedByMajority(s, Perform(s, call));
  }

  lemma LeaderLog(s: Node, h: History, members: set<NodeId>)
    requires HistoryInv(h, members) && NodeInv(s, h, members) && s.role == Leader
    ensures WellFormed(s) && Ascending(s.log) && TermsAtMost(s.log, s.term) && 0 < s.term
  {
    hide HistoryInv, WellFormed, Traced, Ascending, TermsAtMost, Settled, RetainsOk, PastOk;
    LeaderLastTerm(s, h, members);
  }

  /** The last entry of a leader's log is of its own term. */
  lemma LeaderLastTerm(s: Node, h: History, members: set<NodeId>)
    requires HistoryInv(h, members) && LeaderOk(s, h) && s.role == Leader
    ensures 0 < s.term && s.log != [] && LastTerm(s.log) == s.term
  {
    hide VotesOk, BallotsOk, AcksOk, BallotsRetain, Traced, Ascending, Elected;
    assert ReignOk(h, s.term, members);
  }

  lemma TracedInterlock(a: seq<LogEntry>, b: seq<LogEntry>, h: History)
    requires Traced(a, h) && Traced(b, h)
    ensures Interlocks(a, b)
  {
    forall j, k | 0 <= j < |a| && 0 <= k < |b| && a[j].term == b[k].term
      ensures Agree(a, b, Min(j, k) + 1)
    {
      var full := h.reigns[a[j].term].log;
      AgreeLess(a, full, j + 1, Min(j, k) + 1);
      AgreeLess(b, full, k + 1, Min(j, k) + 1);
    }
  }

  lemma OwnTermInside(f: seq<LogEntry>, t: nat, h: History)
    requires Traced(f, h) && t in h.reigns
    ensures forall j | 0 <= j < |f| && f[j].term == t :: j < |h.reigns[t].log|
  {
  }

  lemma MatchedTrue(l: Node, f: Node, h: History, members: set<NodeId>)
    requires NodeInv(l, h, members) && NodeInv(f, h, members)
    requires l.role == Leader && f.id in l.peers && f.term <= l.term
    ensures f.id in l.matched && Agree(f.log, l.log, l.matched[f.id])
  {
    hide LocalOk, LogOk, PastOk, VoteOk, CandidateOk, Settled;
    LeaderView(l, h, members, f.id);
    if l.matched[f.id] > 0 {
      assert f.term == l.term;
      HeldInTerm(f, h, l.matched[f.id]);
    }
  }

  lemma CompatibleNodes(l: Node, f: Node, h: History, members: set<NodeId>)
    requires HistoryInv(h, members) && NodeInv(l, h, members) && NodeInv(f, h, members)
    requires l.role == Leader && f.id in l.peers && f.term <= l.term
    ensures Compatible(l, f)
  {
    hide HistoryInv, Traced, Ascending, RetainsOk, PastOk, Settled, WellFormed, Interlocks, Agree;
    LeaderLastTerm(l, h, members);
    TracedInterlock(f.log, l.log, h);
    OwnTermInside(f.log, l.term, h);
    GrowsItself(h);
    SettledGrows(h, h, f.log, f.commit, f.term, l.term, members);
    SettledHeld(h, members, f.log, f.commit, l.term);
    MatchedTrue(l, f, h, members);
    assert l.id in f.Members();
    PeersApart(l);
  }

  /** Fast repair terminates in every reachable state: when a leader sends to a follower that has not
      moved past its term, and requests and replies are then exchanged in order, the two logs are
      equal after at most as many rounds as the leader's next index for that follower. */
  lemma {:induction false} RepairTerminates(run: seq<Cluster>, i: nat, a: NodeId, p: NodeId) returns (n: nat)
    requires IsRun(run) && i < |run| && a in run[i].nodes && p in run[i].nodes
    requires run[i].nodes[a].role == Leader && p in run[i].nodes[a].peers
    requires run[i].nodes[p].term <= run[i].nodes[a].term
    ensures Tracks(run[i].nodes[a], p) && n <= run[i].nodes[a].next[p]
    ensures var l := SendAppend(run[i].nodes[a], p);
            && l.outbox != []
            && var e := Rounds(Link(l, run[i].nodes[p], l.outbox[|l.outbox| - 1].rpc), n);
            && e.follower.log == e.leader.log == run[i].nodes[a].log
            && p in e.leader.matched && e.leader.matched[p] == |run[i].nodes[a].log|
  {
    hide ClusterInv, IsRun, HistoryInv, NodeInv, WellFormed, Ascending, TermsAtMost, Interlocks, Agree, Rounds;
    var h := Reached(run, i);
    var s, f := run[i].nodes[a], run[i].nodes[p];
    NodeOf(run[i], h, a);
    NodeOf(run[i], h, p);
    NodeTracks(s, h, run[i].members, p);
    CompatibleNodes(s, f, h, run[i].members);
    var l := SendAppend(s, p);
    QuietFine(s, l);
    assert Compatible(l, f);
    n := RepairConverges(Link(l, f, l.outbox[|l.outbox| - 1].rpc));
  }

  /** A refusal never sends a leader forward, however long request and reply were under way: if a
      node refuses a request of the run because of its previous entry, a leader of that term that
      handles its reply, in whatever state of the run, ends up above what it knows to be matched
      and at most at the larger of that and the refused previous index. */
  lemma {:induction false} RefusalRetreatsInRun(run: seq<Cluster>, i: nat, p: NodeId, m: Message, j: nat, a: NodeId)
    requires IsRun(run) && i < |run| && p in run[i].nodes && m in run[i].net && m.rpc.AppendRequest?
    requires Accepts(run[i].nodes[p], m)
    requires m.rpc.term >= run[i].nodes[p].term && !PrevMatches(run[i].nodes[p].log, m.rpc)
    requires j < |run| && a in run[j].nodes && run[j].nodes[a].role == Leader && run[j].nodes[a].term == m.rpc.term
    requires p in run[j].nodes[a].peers && Lookup(run[j].nodes[a].requestId, p) == m.rpc.requestId
    ensures var s, replies := run[j].nodes[a], Receive(run[i].nodes[p], m).outbox;
            && |replies| == 1 && replies[0].rpc.AppendResponse? && replies[0].to == m.from
            && var s' := HandleAppendResponse(s, p, replies[0].rpc);
            && p in s.matched && p in s'.next
            && s.matched[p] + 1 <= s'.next[p] <= Max(m.rpc.prevIndex, s.matched[p] + 1)
  {
    hide ClusterInv, HistoryInv, NodeInv, Grows, IsRun, RequestOk, Traced, Settled, Interlocks, LastOfTerm,
      ConflictStart, ResumeAt, Receive;
    var hs := RunSound(run);
    var h, s, f := hs[|hs| - 1], run[j].nodes[a], run[i].nodes[p];
    RequestRecorded(run, hs, i, m);
    NodeRecorded(run, hs, i, p);
    NodeRecorded(run, hs, j, a);
    NodeOf(run[j], hs[j], a);
    NodeTracks(s, hs[j], run[j].members, p);
    RefusalSent(run, i, p, m);
    TracedInterlock(f.log, s.log, h);
    LeaderPrevTerm(s, m, h, run[0].members);
    RefusalRetreats(s.log, f.log, m.rpc.term, m.rpc);
  }

  lemma {:induction false} RefusalSent(run: seq<Cluster>, i: nat, p: NodeId, m: Message)
    requires IsRun(run) && i < |run| && p in run[i].nodes && m in run[i].net && m.rpc.AppendRequest?
    requires Accepts(run[i].nodes[p], m)
    requires m.rpc.term >= run[i].nodes[p].term && !PrevMatches(run[i].nodes[p].log, m.rpc)
    ensures Receive(run[i].nodes[p], m).outbox
         == [Message(p, m.from, Refusal(run[i].nodes[p].log, m.rpc.term, m.rpc))]
  {
    hide IsRun, ConflictStart, EntriesFit, HistoryInv, NodeInv, Compare, Throws, Accept;
    DefensiveBranchesAreDead(run, i, p, m);
    var h := Reached(run, i);
  }

  lemma LeaderPrevTerm(s: Node, m: Message, h: History, members: set<NodeId>)
    requires Recorded(s, h, members) && s.role == Leader
    requires m.rpc.AppendRequest? && RequestOk(m, h, members) && m.rpc.term == s.term
    ensures m.rpc.prevIndex <= |s.log| ==> m.rpc.prevTerm == TermAt(s.log, m.rpc.prevIndex)
  {
    if 0 < m.rpc.prevIndex <= |s.log| {
      AgreeAt(s.log, h.reigns[s.term].log, |s.log|, m.rpc.prevIndex - 1);
    }
  }
}
