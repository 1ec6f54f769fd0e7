/** What holds of one node from the start of its process to its end under any calls and any
    messages, malformed ones included. */
module Lifetime {
  import opened RaftTypes
  import opened NodeSpec
  import opened Persistence

  /** Committed entries are never touched again, and the stream of committed entries only grows. */
  predicate Keeps(s: Node, s': Node) {
    && SameIdentity(s, s')
    && s.commit <= s'.commit
    && s.term <= s'.term
    && Agree(s.log, s'.log, s.commit)
    && s.published <= s'.published
  }

  /** A step that leaves the node well-formed and its committed past alone. */
  predicate Fine(s: Node, s': Node) {
    WellFormed(s') && Keeps(s, s')
  }

  lemma FineTrans(s1: Node, s2: Node, s3: Node)
    requires Fine(s1, s2) && Fine(s2, s3)
    ensures Fine(s1, s3)
  {
    AgreeLess(s2.log, s3.log, s2.commit, s1.commit);
  }

  lemma CommitFine(s: Node, k: nat)
    requires WellFormed(s) && s.commit <= k <= |s.log|
    ensures Fine(s, CommitTo(s, k))
  {
    PublishedMore(s.log, s.commit, k);
    assert CommitTo(s, k).Members() == s.Members();
  }

  lemma {:induction false} CommitTargetBounds(s: Node, candidate: nat)
    requires candidate <= |s.log|
    ensures CommitTarget(s, candidate) <= candidate || CommitTarget(s, candidate) == s.commit
  {
    if candidate > s.commit {
      CommitTargetBounds(s, candidate - 1);
    }
  }

  lemma {:induction false} AdvanceFine(s: Node)
    requires WellFormed(s)
    ensures Fine(s, AdvanceCommit(s))
  {
    hide WellFormed, CommitTo;
    CommitTargetBounds(s, |s.log|);
    var k := CommitTarget(s, |s.log|);
    if k > s.commit && k <= |s.log| {
      CommitFine(s, k);
    } else {
      QuietFine(s, s);
    }
  }

  /** Queuing messages and renumbering requests. */
  lemma QuietFine(s: Node, s': Node)
    requires WellFormed(s)
    requires s' == s.(requestId := s'.requestId, outbox := s'.outbox)
    requires forall p | p in s.requestId :: p in s'.requestId
    ensures Fine(s, s')
  {
    assert s'.Members() == s.Members();
  }

  lemma {:induction false} BroadcastFine(s: Node, peers: seq<NodeId>)
    requires WellFormed(s)
    ensures Fine(s, BroadcastTo(s, peers))
  {
    hide WellFormed;
    if peers == [] {
      QuietFine(s, s);
    } else {
      var s1 := BroadcastTo(s, peers[..|peers| - 1]);
      BroadcastFine(s, peers[..|peers| - 1]);
      QuietFine(s1, SendAppend(s1, peers[|peers| - 1]));
      FineTrans(s, s1, SendAppend(s1, peers[|peers| - 1]));
    }
  }

  lemma ExtendedFine(s: Node, e: LogEntry)
    requires WellFormed(s)
    ensures Fine(s, s.(log := s.log + [e]).Persist())
  {
    var s' := s.(log := s.log + [e]).Persist();
    assert s.log[..s.commit] == s'.log[..s.commit];
    PublishedAgree(s.log, s'.log, s.commit);
    assert s'.Members() == s.Members();
  }

  lemma {:induction false} CrownedFine(s: Node)
    requires WellFormed(s)
    ensures Fine(s, Crowned(s))
  {
    var s' := Crowned(s);
    CrownedTracks(s);
    assert s.log[..s.commit] == s'.log[..s.commit];
    PublishedAgree(s.log, s'.log, s.commit);
    assert s'.Members() == s.Members();
  }

  lemma {:induction false} LeaderFine(s: Node)
    requires WellFormed(s)
    ensures Fine(s, BecomeLeader(s))
  {
    hide WellFormed, Crowned, AdvanceCommit, BroadcastTo;
    var s1 := Crowned(s);
    CrownedFine(s);
    AdvanceFine(s1);
    FineTrans(s, s1, AdvanceCommit(s1));
    BroadcastFine(AdvanceCommit(s1), AdvanceCommit(s1).peers);
    FineTrans(s, AdvanceCommit(s1), Broadcast(AdvanceCommit(s1)));
  }

  /** A new leader that has advanced its commit index can address every peer. */
  lemma {:induction false} LeaderReady(s: Node)
    requires WellFormed(s)
    ensures var s1 := AdvanceCommit(Crowned(s));
            s1.peers == s.peers && forall p | p in s.peers :: Tracks(s1, p)
  {
    hide AdvanceCommit, Published;
    CrownedFine(s);
    AdvanceFine(Crowned(s));
    AdvanceQuiet(Crowned(s));
  }

  lemma FollowerFine(s: Node, term: nat, leader: Option<NodeId>)
    requires WellFormed(s)
    ensures Fine(s, BecomeFollower(s, term, leader))
  {
    var s' := BecomeFollower(s, term, leader);
    assert s'.Members() == s.Members();
  }

  lemma CandidacyFine(s: Node)
    requires WellFormed(s)
    ensures Fine(s, Candidacy(s))
  {
    assert Candidacy(s).Members() == s.Members();
  }

  lemma {:induction false} StartElectionFine(s: Node)
    requires WellFormed(s)
    ensures Fine(s, StartElection(s))
  {
    hide WellFormed, Candidacy, BecomeLeader, VoteRequests;
    var s1 := Candidacy(s);
    CandidacyFine(s);
    LeaderFine(s1);
    FineTrans(s, s1, BecomeLeader(s1));
    var s2 := s1.(outbox := s1.outbox + VoteRequests(s1, s1.peers));
    QuietFine(s1, s2);
    FineTrans(s, s1, s2);
  }

  lemma VoteFine(s: Node, candidate: NodeId)
    requires WellFormed(s) && candidate in s.Members()
    ensures Fine(s, s.(vote := Some(candidate)).Persist())
  {
    assert s.(vote := Some(candidate)).Persist().Members() == s.Members();
  }

  lemma VoteRequestFine(s: Node, from: NodeId, req: Rpc)
    requires WellFormed(s) && s.IsPeer(from) && req.VoteRequest?
    ensures Fine(s, HandleVoteRequest(s, from, req))
  {
    hide WellFormed, AsCurrent;
    QuietFine(s, s);
    if req.candidate == from {
      VoteFine(s, req.candidate);
    }
    var s1 := if req.candidate == from && req.term >= s.term && s.vote == None
                 && AsCurrent(req.lastTerm, req.lastIndex, s.log)
              then s.(vote := Some(req.candidate)).Persist() else s;
    var s' := HandleVoteRequest(s, from, req);
    QuietFine(s1, s');
    FineTrans(s, s1, s');
  }

  lemma CountedFine(s: Node, voter: NodeId)
    requires WellFormed(s) && voter in s.Members()
    ensures Fine(s, s.(votes := s.votes + {voter}))
  {
    assert s.(votes := s.votes + {voter}).Members() == s.Members();
  }

  lemma {:induction false} VoteResponseFine(s: Node, from: NodeId, resp: Rpc)
    requires WellFormed(s) && s.IsPeer(from) && resp.VoteResponse?
    ensures Fine(s, HandleVoteResponse(s, from, resp))
  {
    hide WellFormed, BecomeLeader;
    QuietFine(s, s);
    var s1 := s.(votes := s.votes + {from});
    CountedFine(s, from);
    LeaderFine(s1);
    FineTrans(s, s1, BecomeLeader(s1));
  }

  /** Entries are only ever replaced beyond the commit index. */
  lemma InstallFine(s: Node, req: Rpc, n: nat)
    requires WellFormed(s) && s.role == Follower
    requires req.AppendRequest? && n <= |req.entries| && req.prevIndex + n <= |s.log|
    requires n < |req.entries| ==> s.commit <= req.prevIndex + n
    ensures Fine(s, Install(s, req, n))
  {
    var s' := Install(s, req, n);
    assert s.log[..s.commit] == s'.log[..s.commit];
    PublishedAgree(s.log, s'.log, s.commit);
    assert s'.Members() == s.Members();
  }

  lemma AcknowledgeFine(s: Node, from: NodeId, req: Rpc)
    requires WellFormed(s) && req.AppendRequest?
    ensures Fine(s, Acknowledge(s, from, req))
  {
    hide WellFormed;
    QuietFine(s, s);
    var s1 := s;
    if req.leaderCommit > s.commit {
      CommitBounds(s);
      s1 := CommitTo(s, Min(req.leaderCommit, |s.log|));
      CommitFine(s, Min(req.leaderCommit, |s.log|));
    }
    QuietFine(s1, Acknowledge(s, from, req));
    FineTrans(s, s1, Acknowledge(s, from, req));
  }

  lemma CommitBounds(s: Node)
    requires WellFormed(s)
    ensures s.commit <= |s.log|
  {
  }

  lemma {:induction false} AppendRequestFine(s: Node, from: NodeId, req: Rpc)
    requires WellFormed(s) && req.AppendRequest?
    ensures Fine(s, HandleAppendRequest(s, from, req))
  {
    hide WellFormed, Compare, EntriesFit, ConflictStart, Install, Acknowledge;
    var s1 := Following(s, req.leader);
    FollowerFine(s, s.term, Some(req.leader));
    QuietFine(s, s);
    var s' := HandleAppendRequest(s, from, req);
    if !Addressed(s, from, req) {
      QuietFine(s, s');
    } else if !PrevMatches(s1.log, req) {
      QuietFine(s1, s');
      FineTrans(s, s1, s');
    } else {
      CompareBounds(s1.log, req.prevIndex, req.entries, 0);
      CommitBounds(s1);
      var o := Compare(s1.log, req.prevIndex, req.entries, 0);
      if o.Corrupt? {
      } else if o.Conflict? && req.prevIndex + o.count < s1.commit {
        QuietFine(s1, s');
        FineTrans(s, s1, s');
      } else {
        var s2 := Install(s1, req, o.count);
        InstallFine(s1, req, o.count);
        FineTrans(s, s1, s2);
        AcknowledgeFine(s2, from, req);
        FineTrans(s, s2, s');
      }
    }
  }

  lemma TrackingFine(s: Node, s': Node, peer: NodeId)
    requires WellFormed(s) && s.role == Leader && peer in s.peers
    requires s' == s.(next := s'.next, matched := s'.matched)
    requires peer in s'.next && peer in s'.matched && s'.matched[peer] + 1 <= s'.next[peer] <= |s.log| + 1
    requires s'.next == s.next[peer := s'.next[peer]] && s'.matched == s.matched[peer := s'.matched[peer]]
    ensures Fine(s, s')
  {
    assert s'.Members() == s.Members();
    forall p | p in s.peers
      ensures Tracks(s', p)
    {
      assert Tracks(s, p) && Tracks(s, peer);
    }
  }

  lemma LeaderTracks(s: Node, peer: NodeId)
    requires WellFormed(s) && s.role == Leader && s.IsPeer(peer)
    ensures peer in s.peers && Tracks(s, peer)
  {
  }

  lemma {:induction false} AppendResponseFine(s: Node, from: NodeId, resp: Rpc)
    requires WellFormed(s) && s.IsPeer(from) && resp.AppendResponse?
    ensures Fine(s, HandleAppendResponse(s, from, resp))
  {
    hide WellFormed, AdvanceCommit, BroadcastTo, LastOfTerm;
    QuietFine(s, s);
    var s' := HandleAppendResponse(s, from, resp);
    if s.role == Leader && resp.term == s.term {
      LeaderTracks(s, from);
      if resp.success && resp.matchIndex <= |s.log| {
        var s1 := s.(matched := s.matched[from := Max(Lookup(s.matched, from), resp.matchIndex)],
                     next := s.next[from := Max(Lookup(s.next, from), resp.matchIndex + 1)]);
        TrackingFine(s, s1, from);
        var s2 := AdvanceCommit(s1);
        AdvanceFine(s1);
        AdvanceQuiet(s1);
        FineTrans(s, s1, s2);
        BroadcastFine(s2, s2.peers);
        QuietFine(s2, SendAppend(s2, from));
        QuietFine(s2, s2);
        FineTrans(s, s2, s');
      } else if !resp.success && Lookup(s.requestId, from) == resp.requestId {
        var s1 := s.(next := s.next[from := Max(ResumeAt(s.log, resp), Lookup(s.matched, from) + 1)]);
        assert s1 == s.(next := s1.next, matched := s.matched[from := s.matched[from]]);
        TrackingFine(s, s1, from);
        QuietFine(s1, s');
        FineTrans(s, s1, s');
      }
    }
  }

  lemma {:induction false} ReceiveFine(s: Node, m: Message)
    requires WellFormed(s)
    ensures Fine(s, Receive(s, m))
  {
    hide WellFormed, HandleVoteRequest, HandleVoteResponse, HandleAppendRequest, HandleAppendResponse;
    QuietFine(s, s);
    if Accepts(s, m) {
      var s1 := AdoptTerm(s, m.rpc.term);
      FollowerFine(s, m.rpc.term, None);
      assert s1.Members() == s.Members();
      match m.rpc
      case VoteRequest(_, _, _, _) => VoteRequestFine(s1, m.from, m.rpc);
      case VoteResponse(_, _) => VoteResponseFine(s1, m.from, m.rpc);
      case AppendRequest(_, _, _, _, _, _, _) => AppendRequestFine(s1, m.from, m.rpc);
      case AppendResponse(_, _, _, _, _, _) => AppendResponseFine(s1, m.from, m.rpc);
      FineTrans(s, s1, Receive(s, m));
    }
  }

  lemma {:induction false} CallFine(s: Node, call: Call)
    requires WellFormed(s)
    ensures Fine(s, Perform(s, call))
  {
    hide WellFormed, StartElection, Receive, AdvanceCommit, BroadcastTo;
    match call
    case OnTick =>
      BroadcastFine(s, s.peers);
      StartElectionFine(s);
    case OnMessage(m) => ReceiveFine(s, m);
    case OnPropose(command) =>
      var s1 := Appended(s, command);
      QuietFine(s, s);
      ExtendedFine(s, LogEntry(s.term, command, false));
      AdvanceFine(s1);
      FineTrans(s, s1, AdvanceCommit(s1));
      BroadcastFine(AdvanceCommit(s1), AdvanceCommit(s1).peers);
      FineTrans(s, AdvanceCommit(s1), Broadcast(AdvanceCommit(s1)));
  }

  /** The state after a sequence of calls. */
  function After(s: Node, calls: seq<Call>): Node {
    if calls == [] then s else Perform(After(s, calls[..|calls| - 1]), calls[|calls| - 1])
  }

  lemma {:induction false} AfterFine(s: Node, calls: seq<Call>)
    requires WellFormed(s)
    ensures Fine(s, After(s, calls))
  {
    hide WellFormed, Perform;
    if calls == [] {
      QuietFine(s, s);
    } else {
      var front := calls[..|calls| - 1];
      AfterFine(s, front);
      CallFine(After(s, front), calls[|calls| - 1]);
      FineTrans(s, After(s, front), After(s, calls));
    }
  }

  lemma {:induction false} AfterSplit(s: Node, first: seq<Call>, rest: seq<Call>)
    ensures After(s, first + rest) == After(After(s, first), rest)
  {
    hide Perform;
    if rest == [] {
      assert first + rest == first;
    } else {
      AfterSplit(s, first, rest[..|rest| - 1]);
      assert (first + rest)[..|first + rest| - 1] == first + rest[..|rest| - 1];
    }
  }

  /** From start to end of a process, under any calls: everything published so far, delivered or
      not, is exactly the command entries of log[1..commit] in order; what was committed after the
      first calls is still there after all of them, and the stream has only been extended. */
  lemma LifetimeSafety(id: NodeId, peers: seq<NodeId>, hard: HardState, first: seq<Call>, rest: seq<Call>)
    requires ValidConfig(id, peers) && Recoverable(id, peers, hard)
    ensures var early := After(Recovered(id, peers, hard), first);
            var late := After(Recovered(id, peers, hard), first + rest);
            && late.applied == late.commit <= |late.log|
            && late.published == Published(late.log, late.commit)
            && early.commit <= late.commit && Agree(early.log, late.log, early.commit)
            && early.published <= late.published
            && (late.role == Leader ==> forall p | p in peers :: Tracks(late, p))
  {
    hide Perform, Published;
    var s := Recovered(id, peers, hard);
    RecoveredWellFormed(id, peers, hard);
    AfterFine(s, first);
    AfterFine(After(s, first), rest);
    AfterSplit(s, first, rest);
  }

  lemma RecoveredWellFormed(id: NodeId, peers: seq<NodeId>, hard: HardState)
    requires ValidConfig(id, peers) && Recoverable(id, peers, hard)
    ensures WellFormed(Recovered(id, peers, hard))
  {
    assert Recovered(id, peers, hard).Members() == {id} + Elements(peers);
  }
}
