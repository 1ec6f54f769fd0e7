/** Every call of a node, run to its end or cut short by a crash after any of its saves, preserves
    the invariant. */
module Calls {
  import opened RaftTypes
  import opened NodeSpec
  import opened History
  import opened Growth
  import opened Completeness
  import opened Elections
  import opened Leadership
  import opened Replication
  import opened Acceptance
  import opened Persistence

  /** A node inside a call: its state and everything it has queued fit the history. */
  ghost predicate Sound(s: Node, h: History, members: set<NodeId>) {
    HistoryInv(h, members) && NodeInv(s, h, members) && OutboxOk(s, h, members)
  }

  lemma SoundGrown(s: Node, s': Node, h: History, h': History, members: set<NodeId>)
    requires OutboxOk(s, h, members) && Extends(h, h', s.id)
    requires HistoryInv(h', members) && NodeInv(s', h', members) && s'.outbox == s.outbox
    ensures Sound(s', h', members)
  {
    hide HistoryInv, NodeInv, Extends, OutboxOk;
    OutboxGrows(s, h, h', members);
    OutboxSame(s, s', h', members);
  }

  lemma BroadcastSound(s: Node, h: History, members: set<NodeId>)
    requires Sound(s, h, members) && s.role == Leader
    ensures Sound(Broadcast(s), h, members)
  {
    hide HistoryInv, NodeInv, OutboxOk;
    BroadcastToOk(s, h, members, s.peers);
  }

  lemma {:induction false} AdvanceSound(s: Node, h: History, members: set<NodeId>)
    requires Sound(s, h, members) && s.role == Leader
    ensures Sound(AdvanceCommit(s), h, members) && AdvanceCommit(s).role == Leader
  {
    hide HistoryInv, NodeInv, OutboxOk;
    AdvanceOk(s, h, members);
    AdvanceQuiet(s);
    OutboxSame(s, AdvanceCommit(s), h, members);
  }

  lemma BecomeLeaderSound(s: Node, h: History, members: set<NodeId>) returns (h': History)
    requires Sound(s, h, members) && s.role == Candidate && |s.votes| >= s.Quorum()
    ensures Extends(h, h', s.id) && Sound(BecomeLeader(s), h', members)
  {
    hide HistoryInv, NodeInv, OutboxOk, Extends;
    h' := CrownOk(s, h, members);
    SoundGrown(s, Crowned(s), h, h', members);
    AdvanceSound(Crowned(s), h', members);
    BroadcastSound(AdvanceCommit(Crowned(s)), h', members);
  }

  // ---- Timers and proposals ---------------------------------------------------------------------

  lemma {:induction false} VoteRequestsOk(s: Node, h: History, members: set<NodeId>, peers: seq<NodeId>)
    requires CandidateOk(s, h) && s.role == Candidate
    ensures forall m | m in VoteRequests(s, peers) :: MessageInv(m, h, members)
  {
    if peers != [] {
      VoteRequestsOk(s, h, members, peers[..|peers| - 1]);
    }
  }

  lemma NodeCandidate(s: Node, h: History, members: set<NodeId>)
    requires NodeInv(s, h, members)
    ensures CandidateOk(s, h)
  {
  }

  lemma CandidacySound(s: Node, h: History, members: set<NodeId>) returns (h': History)
    requires Sound(s, h, members)
    ensures Extends(h, h', s.id) && Sound(Candidacy(s), h', members)
  {
    hide HistoryInv, NodeInv, OutboxOk, Extends;
    h' := CandidacyOk(s, h, members);
    SoundGrown(s, Candidacy(s), h, h', members);
  }

  lemma StartElectionSound(s: Node, h: History, members: set<NodeId>) returns (h': History)
    requires Sound(s, h, members)
    ensures Extends(h, h', s.id) && Sound(StartElection(s), h', members)
  {
    hide HistoryInv, NodeInv, OutboxOk, Extends, MessageInv, BecomeLeader;
    var h1 := CandidacySound(s, h, members);
    var s1 := Candidacy(s);
    if |s1.votes| >= s1.Quorum() {
      h' := BecomeLeaderSound(s1, h1, members);
      ExtendsTrans(h, h1, h', s.id);
    } else {
      h' := h1;
      NodeCandidate(s1, h', members);
      VoteRequestsOk(s1, h', members, s1.peers);
      var s' := s1.(outbox := s1.outbox + VoteRequests(s1, s1.peers));
      SentOk(s1, s', h', members);
      OutboxPlus(s1, s', VoteRequests(s1, s1.peers), h', members);
    }
  }

  lemma OutboxPlus(s: Node, s': Node, more: seq<Message>, h: History, members: set<NodeId>)
    requires OutboxOk(s, h, members) && s'.outbox == s.outbox + more
    requires forall m | m in more :: MessageInv(m, h, members)
    ensures OutboxOk(s', h, members)
  {
    hide MessageInv;
  }

  lemma ProposeSound(s: Node, h: History, members: set<NodeId>, command: seq<byte>) returns (h': History)
    requires Sound(s, h, members)
    ensures Extends(h, h', s.id) && Sound(Propose(s, command), h', members)
  {
    hide HistoryInv, NodeInv, OutboxOk, Extends;
    if s.role == Leader {
      h' := AppendedOk(s, h, members, command);
      SoundGrown(s, Appended(s, command), h, h', members);
      AdvanceSound(Appended(s, command), h', members);
      BroadcastSound(AdvanceCommit(Appended(s, command)), h', members);
    } else {
      h' := h;
      GrowsSelf(h, s.id);
    }
  }

  // ---- Messages ---------------------------------------------------------------------------------

  lemma AdoptTermSound(s: Node, h: History, members: set<NodeId>, term: nat)
    requires Sound(s, h, members)
    ensures Sound(AdoptTerm(s, term), h, members)
  {
    hide HistoryInv, NodeInv, OutboxOk;
    if term > s.term {
      InvAcks(h, members);
      FollowerOk(s, h, members, term, None);
      OutboxSame(s, AdoptTerm(s, term), h, members);
    }
  }

  lemma InvAcks(h: History, members: set<NodeId>)
    requires HistoryInv(h, members)
    ensures AcksOk(h, members)
  {
  }

  lemma SendSound(s: Node, to: NodeId, rpc: Rpc, h: History, members: set<NodeId>)
    requires Sound(s, h, members) && MessageInv(Message(s.id, to, rpc), h, members)
    ensures Sound(s.Send(to, rpc), h, members)
  {
    hide HistoryInv, NodeInv, OutboxOk;
    SendOk(s, to, rpc, h, members);
  }

  lemma VoteRequestSound(s: Node, h: History, members: set<NodeId>, m: Message) returns (h': History)
    requires Sound(s, h, members) && m.rpc.VoteRequest? && MessageInv(m, h, members)
    requires s.IsPeer(m.from) && m.rpc.term <= s.term && s.Members() == members
    ensures Extends(h, h', s.id) && Sound(HandleVoteRequest(s, m.from, m.rpc), h', members)
  {
    hide HistoryInv, NodeInv, OutboxOk, Extends, AsCurrent;
    h' := h;
    GrowsSelf(h, s.id);
    var req := m.rpc;
    var s1 := s;
    var granted := false;
    if req.candidate == m.from && req.term >= s.term && AsCurrent(req.lastTerm, req.lastIndex, s.log) {
      if s.vote == None {
        h' := GrantOk(s, h, members, req.candidate);
        s1 := s.(vote := Some(req.candidate)).Persist();
        SoundGrown(s, s1, h, h', members);
        granted := true;
      } else if s.vote == Some(req.candidate) {
        NodeVote(s, h, members);
        granted := true;
      }
    }
    SendSound(s1, m.from, VoteResponse(s1.term, granted), h', members);
  }

  lemma NodeVote(s: Node, h: History, members: set<NodeId>)
    requires NodeInv(s, h, members)
    ensures VoteOk(s, h)
  {
  }

  lemma CountedOk(s: Node, h: History, members: set<NodeId>, voter: NodeId)
    requires NodeInv(s, h, members) && s.role == Candidate && voter in members
    requires Slot(s.term, voter) in h.votes && h.votes[Slot(s.term, voter)] == s.id
    ensures NodeInv(s.(votes := s.votes + {voter}), h, members)
  {
    hide Traced, Ascending, Retains, Settled, PastOk, VoteOk;
    var s' := s.(votes := s.votes + {voter});
    PastSame(s, s', h);
    assert s'.Members() == s.Members();
  }

  lemma VoteResponseSound(s: Node, h: History, members: set<NodeId>, m: Message) returns (h': History)
    requires Sound(s, h, members) && m.rpc.VoteResponse? && MessageInv(m, h, members)
    requires m.to == s.id && s.IsPeer(m.from) && s.Members() == members
    ensures Extends(h, h', s.id) && Sound(HandleVoteResponse(s, m.from, m.rpc), h', members)
  {
    hide HistoryInv, NodeInv, OutboxOk, Extends, BecomeLeader;
    h' := h;
    GrowsSelf(h, s.id);
    if s.role == Candidate && m.rpc.term == s.term && m.rpc.granted {
      var s1 := s.(votes := s.votes + {m.from});
      CountedOk(s, h, members, m.from);
      OutboxSame(s, s1, h, members);
      if |s1.votes| >= s1.Quorum() {
        h' := BecomeLeaderSound(s1, h, members);
      }
    }
  }

  lemma FollowingSound(s: Node, h: History, members: set<NodeId>, m: Message)
    requires Sound(s, h, members) && m.rpc.AppendRequest? && RequestOk(m, h, members) && m.rpc.term == s.term
    ensures Sound(Following(s, m.rpc.leader), h, members)
    ensures Following(s, m.rpc.leader).role == Follower && Following(s, m.rpc.leader).Hard() == s.Hard()
  {
    hide HistoryInv, NodeInv, OutboxOk, Settled;
    InvAcks(h, members);
    FollowerOk(s, h, members, s.term, Some(m.rpc.leader));
    OutboxSame(s, Following(s, m.rpc.leader), h, members);
  }

  lemma RejectSound(s: Node, h: History, members: set<NodeId>, from: NodeId, req: Rpc, index: nat, term: Option<nat>)
    requires Sound(s, h, members) && req.AppendRequest?
    ensures Sound(Reject(s, from, req, index, term), h, members)
  {
    hide HistoryInv, NodeInv, OutboxOk;
    SendSound(s, from, AppendResponse(s.term, false, 0, index, term, req.requestId), h, members);
  }

  lemma {:induction false} AppendRequestSound(s: Node, h: History, members: set<NodeId>, m: Message)
      returns (h': History)
    requires Sound(s, h, members) && m.rpc.AppendRequest? && MessageInv(m, h, members)
    requires m.rpc.term <= s.term
    ensures Extends(h, h', s.id) && Sound(HandleAppendRequest(s, m.from, m.rpc), h', members)
  {
    hide HistoryInv, NodeInv, OutboxOk, Extends, RequestOk, Compare, Reject, EntriesFit, ConflictStart, Install,
      Acknowledge;
    h' := h;
    GrowsSelf(h, s.id);
    var req := m.rpc;
    if !Addressed(s, m.from, req) {
      RejectSound(s, h, members, m.from, req, |s.log| + 1, None);
      return;
    }
    FollowingSound(s, h, members, m);
    var s1 := Following(s, req.leader);
    if req.prevIndex > |s1.log| {
      RejectSound(s1, h, members, m.from, req, |s1.log| + 1, None);
    } else if !PrevMatches(s1.log, req) {
      RejectSound(s1, h, members, m.from, req, ConflictStart(s1.log, req.prevIndex),
                  Some(s1.log[req.prevIndex - 1].term));
    } else {
      NodeSettled(s1, h, members);
      NoDamage(s1, m, h, members);
      CompareBounds(s1.log, req.prevIndex, req.entries, 0);
      h' := AcceptOk(s1, m, h, members);
    }
  }

  /** The bookkeeping of a leader after a reply leaves everything else in place. */
  lemma TrackingOk(s: Node, s': Node, h: History, members: set<NodeId>, peer: NodeId)
    requires NodeInv(s, h, members) && s.role == Leader && peer in s.peers
    requires s' == s.(next := s'.next, matched := s'.matched)
    requires s'.next.Keys == s.next.Keys + {peer} && s'.matched.Keys == s.matched.Keys + {peer}
    requires forall p | p in s.peers && p != peer && p in s.next && p in s.matched ::
               s'.next[p] == s.next[p] && s'.matched[p] == s.matched[p]
    requires s'.matched[peer] + 1 <= s'.next[peer] <= |s.log| + 1
    requires 0 < s'.matched[peer] ==>
               Slot(s.term, peer) in h.acks && s'.matched[peer] <= h.acks[Slot(s.term, peer)]
    ensures NodeInv(s', h, members)
  {
    hide Traced, Ascending, Retains, Settled, PastOk, VoteOk;
    PastSame(s, s', h);
    assert s'.Members() == s.Members();
    forall p | p in s.peers
      ensures Tracks(s', p)
    {
      assert Tracks(s, p);
    }
  }

  lemma NodeTracks(s: Node, h: History, members: set<NodeId>, peer: NodeId)
    requires NodeInv(s, h, members) && s.role == Leader && peer in s.peers
    ensures Tracks(s, peer)
    ensures 0 < s.matched[peer] ==>
              Slot(s.term, peer) in h.acks && s.matched[peer] <= h.acks[Slot(s.term, peer)]
  {
  }

  lemma {:induction false} AppendResponseSound(s: Node, h: History, members: set<NodeId>, m: Message)
    requires Sound(s, h, members) && m.rpc.AppendResponse? && MessageInv(m, h, members)
    requires s.IsPeer(m.from)
    ensures Sound(HandleAppendResponse(s, m.from, m.rpc), h, members)
  {
    hide HistoryInv, NodeInv, OutboxOk, SendAppend, BroadcastTo, AdvanceCommit, LastOfTerm;
    var resp, p := m.rpc, m.from;
    assert p in s.peers;
    if s.role != Leader || resp.term != s.term {
    } else if resp.success {
      if resp.matchIndex <= |s.log| {
        NodeTracks(s, h, members, p);
        var s1 := s.(matched := s.matched[p := Max(Lookup(s.matched, p), resp.matchIndex)],
                     next := s.next[p := Max(Lookup(s.next, p), resp.matchIndex + 1)]);
        TrackingOk(s, s1, h, members, p);
        OutboxSame(s, s1, h, members);
        AdvanceSound(s1, h, members);
        AdvanceQuiet(s1);
        BroadcastSound(AdvanceCommit(s1), h, members);
        SendAppendSound(AdvanceCommit(s1), h, members, p);
      }
    } else if Lookup(s.requestId, p) == resp.requestId {
      NodeTracks(s, h, members, p);
      var s1 := s.(next := s.next[p := Max(ResumeAt(s.log, resp), Lookup(s.matched, p) + 1)]);
      TrackingOk(s, s1, h, members, p);
      OutboxSame(s, s1, h, members);
      SendAppendSound(s1, h, members, p);
    }
  }

  lemma SendAppendSound(s: Node, h: History, members: set<NodeId>, peer: NodeId)
    requires Sound(s, h, members) && s.role == Leader && peer in s.peers
    ensures Sound(SendAppend(s, peer), h, members)
  {
    hide HistoryInv, NodeInv, OutboxOk;
    SendAppendOk(s, h, members, peer);
  }

  lemma ReceiveSound(s: Node, h: History, members: set<NodeId>, m: Message) returns (h': History)
    requires Sound(s, h, members) && MessageInv(m, h, members) && s.Members() == members
    ensures Extends(h, h', s.id) && Sound(Receive(s, m), h', members)
  {
    hide Sound, MessageInv, Extends, HandleVoteRequest, HandleVoteResponse, HandleAppendRequest, HandleAppendResponse;
    h' := h;
    GrowsSelf(h, s.id);
    if Accepts(s, m) {
      var s1 := AdoptTerm(s, m.rpc.term);
      AdoptTermSound(s, h, members, m.rpc.term);
      assert s1.Members() == s.Members();
      match m.rpc
      case VoteRequest(_, _, _, _) => h' := VoteRequestSound(s1, h, members, m);
      case VoteResponse(_, _) => h' := VoteResponseSound(s1, h, members, m);
      case AppendRequest(_, _, _, _, _, _, _) => h' := AppendRequestSound(s1, h, members, m);
      case AppendResponse(_, _, _, _, _, _) => AppendResponseSound(s1, h, members, m);
    }
  }

  // ---- Whole calls ------------------------------------------------------------------------------

  lemma PerformSound(s: Node, h: History, members: set<NodeId>, call: Call) returns (h': History)
    requires Sound(s, h, members) && s.Members() == members
    requires call.OnMessage? ==> MessageInv(call.m, h, members)
    ensures Extends(h, h', s.id) && Sound(Perform(s, call), h', members)
  {
    hide Sound, MessageInv, Extends, StartElection, Receive, Propose, Broadcast;
    match call
    case OnTick =>
      if s.role == Leader {
        h' := h;
        GrowsSelf(h, s.id);
        BroadcastSound(s, h, members);
      } else {
        h' := StartElectionSound(s, h, members);
      }
    case OnMessage(m) => h' := ReceiveSound(s, h, members, m);
    case OnPropose(command) => h' := ProposeSound(s, h, members, command);
  }

  lemma MidwaySound(s: Node, h: History, members: set<NodeId>, call: Call) returns (h': History)
    requires Sound(s, h, members)
    ensures Extends(h, h', s.id) && Sound(Midway(s, call), h', members)
  {
    hide Sound, Extends;
    h' := h;
    GrowsSelf(h, s.id);
    match call
    case OnTick =>
      if s.role != Leader {
        h' := CandidacySound(s, h, members);
      }
    case OnMessage(m) =>
      AdoptTermSound(s, h, members, m.rpc.term);
    case OnPropose(_) =>
  }

  /** A crash after save k of a call, and the restart from what was saved. */
  lemma CrashSound(s: Node, h: History, members: set<NodeId>, call: Call, k: nat) returns (h': History)
    requires Sound(s, h, members) && s.Members() == members && s.saves == [s.Hard()]
    requires call.OnMessage? ==> MessageInv(call.m, h, members)
    requires k < |Perform(s, call).saves|
    ensures HistoryInv(h', members) && Extends(h, h', s.id)
    ensures Recoverable(s.id, s.peers, Perform(s, call).saves[k])
    ensures NodeInv(Recovered(s.id, s.peers, Perform(s, call).saves[k]), h', members)
  {
    hide HistoryInv, NodeInv, OutboxOk, MessageInv, Extends, Perform, Midway, Recoverable, Recovered;
    var mid, end := Midway(s, call), Perform(s, call);
    CallSaves(s, call);
    if end.saves[k] == s.Hard() {
      h' := h;
      GrowsSelf(h, s.id);
      RecoveryOk(s, h, members);
    } else if end.saves[k] == mid.Hard() {
      h' := MidwaySound(s, h, members, call);
      RecoveryOk(mid, h', members);
    } else {
      h' := PerformSound(s, h, members, call);
      RecoveryOk(end, h', members);
    }
  }
}
