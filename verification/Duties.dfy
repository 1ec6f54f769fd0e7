/** What each call of a node has to do, under any message: the safety theorems would also hold of nodes
    that do too little, so these results say that votes are asked for and given, that commands are
    appended and sent, that acknowledgements are recorded, and that followers commit. */
module Duties {
  import opened RaftTypes
  import opened NodeSpec
  import opened History
  import opened Growth
  import opened Persistence
  import opened Replies
  import opened CommitScan
  import opened Lifetime
  import opened Repair

  /** The state before the sends of a step, seen from the state after it. */
  function Unsent(s: Node, s': Node): Node {
    s'.(requestId := s.requestId, outbox := s.outbox)
  }

  // ---- Terms and leaders ------------------------------------------------------------------------

  lemma {:induction false} AcceptKeeps(s: Node, from: NodeId, req: Rpc, o: Overlap)
    requires req.AppendRequest? && o.count <= |req.entries| && req.prevIndex + o.count <= |s.log|
    ensures var s' := Accept(s, from, req, o); s'.term == s.term && s'.role == s.role && s'.leader == s.leader
  {
    hide NewlyPublished;
  }

  lemma {:induction false} ReconcileKeeps(s: Node, from: NodeId, req: Rpc)
    requires req.AppendRequest?
    ensures var s' := Reconcile(s, from, req); s'.term == s.term && s'.role == s.role && s'.leader == s.leader
  {
    hide Compare, ConflictStart, Accept;
    if PrevMatches(s.log, req) {
      CompareBounds(s.log, req.prevIndex, req.entries, 0);
      AcceptKeeps(s, from, req, Compare(s.log, req.prevIndex, req.entries, 0));
    }
  }

  lemma {:induction false} RequestKeepsTerm(s: Node, from: NodeId, req: Rpc)
    requires req.AppendRequest?
    ensures HandleAppendRequest(s, from, req).term == s.term
    ensures s.role == Follower ==> HandleAppendRequest(s, from, req).role == Follower
  {
    hide EntriesFit, Reconcile;
    ReconcileKeeps(Following(s, req.leader), from, req);
  }

  lemma {:induction false} ReplyKeepsTerm(s: Node, from: NodeId, resp: Rpc)
    requires resp.AppendResponse?
    ensures HandleAppendResponse(s, from, resp).term == s.term && HandleAppendResponse(s, from, resp).role == s.role
  {
    hide AdvanceCommit, BroadcastTo, ResumeAt;
    if resp.success && resp.matchIndex <= |s.log| {
      var s1 := s.(matched := s.matched[from := Max(Lookup(s.matched, from), resp.matchIndex)],
                   next := s.next[from := Max(Lookup(s.next, from), resp.matchIndex + 1)]);
      AdvanceQuiet(s1);
      BroadcastQuiet(AdvanceCommit(s1), s1.peers);
    }
  }

  lemma {:induction false} HandlerKeepsTerm(s: Node, from: NodeId, rpc: Rpc)
    ensures Handle(s, from, rpc).term == s.term
    ensures s.role == Follower ==> Handle(s, from, rpc).role == Follower
  {
    hide BecomeLeader, HandleAppendRequest, HandleAppendResponse, AsCurrent;
    match rpc
    case VoteRequest(_, _, _, _) =>
    case VoteResponse(_, _) => CrownSaves(s.(votes := s.votes + {from}));
    case AppendRequest(_, _, _, _, _, _, _) => RequestKeepsTerm(s, from, rpc);
    case AppendResponse(_, _, _, _, _, _) => ReplyKeepsTerm(s, from, rpc);
  }

  /** A member's message brings the node to the later of the two terms, and a later term makes any node
      a follower. */
  lemma {:induction false} AdoptsTerm(s: Node, m: Message)
    requires m.to == s.id && m.from != s.id && m.from in s.peers
    ensures Receive(s, m).term == Max(s.term, m.rpc.term)
    ensures m.rpc.term > s.term ==> Receive(s, m).role == Follower
  {
    hide Handle;
    assert m.from in s.Members();
    HandlerKeepsTerm(AdoptTerm(s, m.rpc.term), m.from, m.rpc);
  }

  /** A message that is misdelivered or not from a peer changes nothing. */
  lemma StrangersIgnored(s: Node, m: Message)
    requires m.to != s.id || m.from == s.id || m.from !in s.peers
    ensures Receive(s, m) == s
  {
  }

  /** A request of the current term with fit entries makes the node a follower of its sender. */
  lemma {:induction false} FollowsLeader(s: Node, from: NodeId, req: Rpc)
    requires req.AppendRequest? && req.leader == from && req.term >= s.term
    requires forall i | 0 <= i < |req.entries| :: 0 < req.entries[i].term <= req.term
    ensures var s' := HandleAppendRequest(s, from, req);
            s'.role == Follower && s'.leader == Some(from)
  {
    hide Reconcile;
    ReconcileKeeps(Following(s, req.leader), from, req);
  }

  // ---- Votes ------------------------------------------------------------------------------------

  /** A candidate of the voter's term that the voter is free to vote for is refused exactly when the
      voter's own log is strictly more current: its last term is later, or is the same in a longer log. */
  lemma VoteByLog(s: Node, from: NodeId, log: seq<LogEntry>)
    requires s.vote == None || s.vote == Some(from)
    ensures var s' := HandleVoteRequest(s, from, VoteRequest(s.term, from, |log|, LastTerm(log)));
            s'.outbox == s.outbox +
              [Message(s.id, from, VoteResponse(s.term,
                 !(LastTerm(s.log) > LastTerm(log) || (LastTerm(s.log) == LastTerm(log) && |s.log| > |log|))))]
  {
  }

  /** A vote given to somebody else, a request of an earlier term and a request in another's name are
      answered with a refusal, and change nothing else. */
  lemma VoteRefused(s: Node, from: NodeId, req: Rpc)
    requires req.VoteRequest?
    requires (s.vote.Some? && s.vote != Some(from)) || req.term < s.term || req.candidate != from
    ensures HandleVoteRequest(s, from, req) == s.Send(from, VoteResponse(s.term, false))
  {
  }

  /** A candidate that holds everything the voter has, and perhaps more, gets its vote. */
  lemma LongerLogGetsVote(s: Node, from: NodeId, log: seq<LogEntry>)
    requires s.vote == None || s.vote == Some(from)
    requires Ascending(log) && Agree(s.log, log, |s.log|)
    ensures var s' := HandleVoteRequest(s, from, VoteRequest(s.term, from, |log|, LastTerm(log)));
            s'.vote == Some(from) && s'.outbox == s.outbox + [Message(s.id, from, VoteResponse(s.term, true))]
  {
    VoteByLog(s, from, log);
    if s.log != [] {
      AgreeAt(s.log, log, |s.log|, |s.log| - 1);
    }
  }

  // ---- Elections --------------------------------------------------------------------------------

  /** The node stands in the next term, votes for itself and asks every peer, once and in order. */
  ghost predicate Asked(s: Node, s': Node) {
    && s'.role == Candidate && s'.term == s.term + 1 && s'.vote == Some(s.id) && s'.votes == {s.id}
    && s'.log == s.log && s'.commit == s.commit
    && |s'.outbox| == |s.outbox| + |s.peers| && s.outbox <= s'.outbox
    && forall i | 0 <= i < |s.peers| ::
         s'.outbox[|s.outbox| + i] ==
         Message(s.id, s.peers[i], VoteRequest(s.term + 1, s.id, |s.log|, LastTerm(s.log)))
  }

  /** The node leads its term: the no-op ends its log, it tracks every peer from just before the no-op
      with nothing matched, and each peer was sent the no-op. */
  ghost predicate Led(s: Node, term: nat, s': Node) {
    && s'.role == Leader && s'.term == term && s'.leader == Some(s.id)
    && s'.log == s.log + [LogEntry(term, [], true)]
    && s'.saves != [] && s'.saves[|s'.saves| - 1] == s'.Hard()
    && (forall p | p in s.peers :: p in s'.next && s'.next[p] == |s.log| + 1 && p in s'.matched && s'.matched[p] == 0)
    && |s'.outbox| == |s.outbox| + |s.peers| && s.outbox <= s'.outbox
    && forall i | 0 <= i < |s.peers| ::
         s'.outbox[|s.outbox| + i] ==
         Message(s.id, s.peers[i], AppendRequest(term, s.id, |s.log|, LastTerm(s.log), [LogEntry(term, [], true)],
                                                 s'.commit, 1))
  }

  lemma {:induction false} CrownedParts(s: Node)
    ensures var s1 := Crowned(s);
            && s1.log == s.log + [LogEntry(s.term, [], true)] && SameIdentity(s, s1) && s1.outbox == s.outbox
            && s1.role == Leader && s1.term == s.term && s1.leader == Some(s.id)
            && s1.saves == s.saves + [s1.Hard()]
            && forall p | p in s.peers :: Tracks(s1, p) && s1.next[p] == |s.log| + 1 && s1.matched[p] == 0
                                         && s1.requestId[p] == 0
  {
    AssignAll(s.next, s.peers, |s.log| + 1);
    AssignAll(s.matched, s.peers, 0);
    AssignAll(s.requestId, s.peers, 0);
  }

  /** A scan and a broadcast on a leader that tracks its peers. */
  lemma {:induction false} AdvanceAndSend(s: Node)
    requires ValidConfig(s.id, s.peers) && forall p | p in s.peers :: Tracks(s, p)
    ensures var s1, s' := AdvanceCommit(s), Broadcast(AdvanceCommit(s));
            && s1 == s.(commit := s1.commit, applied := s1.applied, published := s1.published)
            && (forall p | p in s.peers :: Tracks(s1, p))
            && SentTo(s1, s', s.peers)
            && LargestOnMajority(s, s.commit, s1.commit)
  {
    hide AdvanceCommit, BroadcastTo, SentTo, LargestOnMajority;
    AdvanceQuiet(s);
    AdvanceIsLargest(s);
    BroadcastReaches(AdvanceCommit(s), s.peers);
  }

  lemma DueNoOp(s: Node, s2: Node, p: NodeId, commit: nat)
    requires Tracks(s2, p) && s2.next[p] == |s.log| + 1 && s2.requestId[p] == 0 && s2.commit == commit
    requires s2.id == s.id && s2.term == s.term && s2.log == s.log + [LogEntry(s.term, [], true)]
    ensures DueTo(s2, p) == Message(s.id, p, AppendRequest(s.term, s.id, |s.log|, LastTerm(s.log),
                                                           [LogEntry(s.term, [], true)], commit, 1))
  {
    assert s2.log[|s.log|..] == [LogEntry(s.term, [], true)];
  }

  lemma SentNoOps(s: Node, s2: Node, s': Node)
    requires (forall p | p in s.peers :: Tracks(s2, p)) && SentTo(s2, s', s.peers)
    requires s2.id == s.id && s2.term == s.term && s2.log == s.log + [LogEntry(s.term, [], true)]
    requires s2.outbox == s.outbox
    requires forall p | p in s.peers :: s2.next[p] == |s.log| + 1 && s2.requestId[p] == 0
    ensures |s'.outbox| == |s.outbox| + |s.peers|
    ensures forall i | 0 <= i < |s.peers| ::
              s'.outbox[|s.outbox| + i] ==
              Message(s.id, s.peers[i], AppendRequest(s.term, s.id, |s.log|, LastTerm(s.log),
                                                      [LogEntry(s.term, [], true)], s2.commit, 1))
  {
    hide DueTo, SentTo, Tracks;
    SentFacts(s2, s', s.peers);
    forall i | 0 <= i < |s.peers|
      ensures s'.outbox[|s.outbox| + i] ==
              Message(s.id, s.peers[i], AppendRequest(s.term, s.id, |s.log|, LastTerm(s.log),
                                                      [LogEntry(s.term, [], true)], s2.commit, 1))
    {
      assert s.peers[i] in s.peers;
      SentAt(s2, s', s.peers, i);
      DueNoOp(s, s2, s.peers[i], s2.commit);
    }
  }

  lemma {:induction false} WinnerLeads(s: Node)
    requires ValidConfig(s.id, s.peers)
    ensures Led(s, s.term, BecomeLeader(s))
  {
    hide AdvanceCommit, BroadcastTo, LargestOnMajority, SentTo;
    CrownedParts(s);
    hide Crowned;
    var s1 := Crowned(s);
    AdvanceAndSend(s1);
    hide ValidConfig;
    SentFacts(AdvanceCommit(s1), BecomeLeader(s), s.peers);
    SentNoOps(s, AdvanceCommit(s1), BecomeLeader(s));
    hide Tracks;
  }

  /** An election: a node that is a majority by itself leads the next term at once, any other asks every
      peer for its vote. */
  ghost predicate Stood(s: Node, s': Node) {
    if Majority({s.id}, s.Members()) then Led(s, s.term + 1, s') else Asked(s, s')
  }

  lemma {:induction false} ElectionStarts(s: Node)
    requires WellFormed(s)
    ensures Stood(s, StartElection(s))
  {
    hide BecomeLeader, Led, WellFormed;
    var s1 := Candidacy(s);
    assert s1.Members() == s.Members();
    QuorumIsMajority(s1, {s.id});
    if Majority({s.id}, s.Members()) {
      CandidateLeads(s);
    } else {
      VoteRequestsReach(s1, s.peers);
    }
  }

  /** An expired election timer starts an election. */
  lemma {:induction false} StandsForElection(s: Node)
    requires WellFormed(s) && s.role != Leader
    ensures Stood(s, Perform(s, OnTick))
  {
    hide StartElection, WellFormed, Stood;
    ElectionStarts(s);
  }

  lemma {:induction false} CandidateLeads(s: Node)
    requires WellFormed(s)
    ensures Led(s, s.term + 1, BecomeLeader(Candidacy(s)))
  {
    hide BecomeLeader, Published;
    WinnerLeads(Candidacy(s));
  }

  /** A candidate after granted votes of its term from the listed peers have been delivered. */
  function Counted(s: Node, voters: seq<NodeId>): Node {
    if voters == [] then s
    else
      var last := voters[|voters| - 1];
      Receive(Counted(s, voters[..|voters| - 1]), Message(last, s.id, VoteResponse(s.term, true)))
  }

  /** A candidate wins exactly when the members that voted for it, however often each one's reply
      arrives and in whatever order, are more than half of all members. */
  lemma {:induction false} WinsExactly(s: Node, voters: seq<NodeId>)
    requires s.role == Candidate && ValidConfig(s.id, s.peers) && s.votes <= s.Members()
    requires 2 * |s.votes| <= |s.Members()|
    requires forall v | v in voters :: v in s.peers
    ensures var s' := Counted(s, voters);
            && s'.term == s.term && SameIdentity(s, s')
            && (s'.role == Leader <==> 2 * |s.votes + Elements(voters)| > |s.Members()|)
            && (s'.role != Leader ==> s' == s.(votes := s.votes + Elements(voters)))
  {
    hide BecomeLeader, ValidConfig;
    if voters == [] {
      assert s.votes + Elements(voters) == s.votes;
    } else {
      var front, last := voters[..|voters| - 1], voters[|voters| - 1];
      assert forall v | v in front :: v in voters;
      assert last in voters;
      ElementsLast(s.votes, voters);
      WinsExactly(s, front);
      SubsetSmaller(s.votes + Elements(front), s.votes + Elements(voters));
      CountsOne(s, Counted(s, front), front, voters);
    }
  }

  lemma {:induction false} CountsOne(s: Node, s1: Node, front: seq<NodeId>, voters: seq<NodeId>)
    requires voters != [] && front == voters[..|voters| - 1] && ValidConfig(s.id, s.peers)
    requires voters[|voters| - 1] in s.peers && s1.term == s.term && SameIdentity(s, s1)
    requires s.votes + Elements(voters) == s.votes + Elements(front) + {voters[|voters| - 1]}
    requires s1.role == Leader || (s1 == s.(votes := s.votes + Elements(front)) && s.role == Candidate)
    ensures var s' := Receive(s1, Message(voters[|voters| - 1], s.id, VoteResponse(s.term, true)));
            if s1.role == Leader then s' == s1
            else if 2 * |s.votes + Elements(voters)| > |s.Members()|
            then s'.role == Leader && s'.term == s.term && SameIdentity(s, s')
            else s' == s.(votes := s.votes + Elements(voters))
  {
    hide BecomeLeader, Elements;
    var last := voters[|voters| - 1];
    PeerAccepted(s1, last);
    assert s1.Members() == s.Members();
    if s1.role != Leader {
      var s2 := s.(votes := s.votes + Elements(voters));
      assert s2.Members() == s.Members();
      CrownSaves(s2);
      LeadsItsTerm(s2);
    }
  }

  lemma PeerAccepted(s: Node, p: NodeId)
    requires ValidConfig(s.id, s.peers) && p in s.peers
    ensures s.IsPeer(p)
  {
  }

  lemma {:induction false} LeadsItsTerm(s: Node)
    ensures BecomeLeader(s).role == Leader && BecomeLeader(s).term == s.term
  {
    AdvanceQuiet(Crowned(s));
    BroadcastQuiet(AdvanceCommit(Crowned(s)), AdvanceCommit(Crowned(s)).peers);
  }

  lemma ElementsLast(votes: set<NodeId>, voters: seq<NodeId>)
    requires voters != []
    ensures votes + Elements(voters) == votes + Elements(voters[..|voters| - 1]) + {voters[|voters| - 1]}
  {
    assert voters == voters[..|voters| - 1] + [voters[|voters| - 1]];
  }

  // ---- Heartbeats and proposals -----------------------------------------------------------------

  /** A leader's tick sends every peer what it is due and changes nothing else. */
  lemma {:induction false} HeartbeatReaches(s: Node)
    requires WellFormed(s) && s.role == Leader
    ensures SentTo(s, Perform(s, OnTick), s.peers)
  {
    hide SentTo, Published;
    BroadcastReaches(s, s.peers);
  }

  /** The command is the last entry of the log and of storage, it is committed if that can be done at
      once, and every peer is sent a request that ends in it. */
  ghost predicate Proposed(s: Node, command: seq<byte>, s': Node)
    requires s.role == Leader && forall p | p in s.peers :: Tracks(s, p)
  {
    var entry := LogEntry(s.term, command, false);
    && s'.log == s.log + [entry] && s'.term == s.term && s'.role == Leader
    && s'.saves == s.saves + [HardState(s.term, s.vote, s.log + [entry])]
    && s'.next == s.next && s'.matched == s.matched
    && LargestOnMajority(s', s.commit, s'.commit)
    && (forall p | p in s.peers :: Tracks(Unsent(s, s'), p))
    && SentTo(Unsent(s, s'), s', s.peers)
    && forall i | 0 <= i < |s.peers| :: Carries(s'.outbox[|s.outbox| + i], s.peers[i], entry)
  }

  /** A replication request to the peer that ends in the entry. */
  predicate Carries(m: Message, p: NodeId, entry: LogEntry) {
    && m.to == p && m.rpc.AppendRequest?
    && m.rpc.entries != [] && m.rpc.entries[|m.rpc.entries| - 1] == entry
  }

  lemma DueEndsIn(s: Node, p: NodeId, entry: LogEntry)
    requires Tracks(s, p) && s.next[p] <= |s.log| && s.log[|s.log| - 1] == entry
    ensures Carries(DueTo(s, p), p, entry)
  {
    SliceEnds(s.log, s.next[p] - 1);
  }

  lemma SliceEnds(log: seq<LogEntry>, from: nat)
    requires from < |log|
    ensures log[from..] != [] && log[from..][|log[from..]| - 1] == log[|log| - 1]
  {
  }

  lemma SentCarries(s: Node, s': Node, peers: seq<NodeId>, entry: LogEntry)
    requires (forall p | p in peers :: Tracks(s, p) && s.next[p] <= |s.log|) && SentTo(s, s', peers)
    requires s.log != [] && s.log[|s.log| - 1] == entry
    ensures |s'.outbox| == |s.outbox| + |peers|
    ensures forall i | 0 <= i < |peers| :: Carries(s'.outbox[|s.outbox| + i], peers[i], entry)
  {
    hide DueTo, SentTo, Tracks, Carries;
    SentFacts(s, s', peers);
    forall i | 0 <= i < |peers|
      ensures Carries(s'.outbox[|s.outbox| + i], peers[i], entry)
    {
      assert peers[i] in peers;
      SentAt(s, s', peers, i);
      DueEndsIn(s, peers[i], entry);
    }
  }

  lemma AppendedTracks(s: Node, command: seq<byte>)
    requires WellFormed(s) && s.role == Leader
    ensures ValidConfig(s.id, s.peers)
    ensures forall p | p in s.peers :: Tracks(s, p) && Tracks(Appended(s, command), p) && s.next[p] <= |s.log| + 1
  {
    hide Published;
  }

  lemma {:induction false} ProposalAppended(s: Node, command: seq<byte>)
    requires WellFormed(s) && s.role == Leader
    ensures Proposed(s, command, Perform(s, OnPropose(command)))
  {
    hide AdvanceCommit, BroadcastTo, WellFormed, SentTo, LargestOnMajority, ValidConfig, Carries, Tracks;
    AppendedTracks(s, command);
    var s1, s' := Appended(s, command), Perform(s, OnPropose(command));
    AdvanceAndSend(s1);
    var s2 := AdvanceCommit(s1);
    SentFacts(s2, s', s.peers);
    assert Unsent(s, s') == s2;
    SentCarries(s2, s', s.peers, LogEntry(s.term, command, false));
    MajoritySame(s1, s', s.commit, s'.commit);
  }

  /** What is on a majority depends on members, log, term and matched indexes alone. */
  lemma MajoritySame(s: Node, s': Node, from: nat, k: nat)
    requires LargestOnMajority(s, from, k) && SameScan(s, s')
    ensures LargestOnMajority(s', from, k)
  {
    assert s'.Members() == s.Members();
    forall x: nat
      ensures OnMajority(s', x) == OnMajority(s, x)
    {
      assert Holding(s', x) == Holding(s, x);
    }
  }

  /** Nobody but a leader takes a proposal. */
  lemma ProposalRefused(s: Node, command: seq<byte>)
    requires s.role != Leader
    ensures Perform(s, OnPropose(command)) == s
  {
  }

  // ---- Followers --------------------------------------------------------------------------------

  /** A follower that acknowledges a request goes along with the leader's commit index as far as its
      own log reaches, and publishes everything up to there. */
  ghost predicate CommitFollowed(s: Node, req: Rpc, s': Node)
    requires req.AppendRequest?
  {
    s'.commit == if req.leaderCommit > s.commit then Min(req.leaderCommit, |s'.log|) else s.commit
  }

  lemma {:induction false} AcknowledgeFollows(s: Node, from: NodeId, req: Rpc)
    requires req.AppendRequest?
    ensures CommitFollowed(s, req, Acknowledge(s, from, req)) && Acknowledge(s, from, req).log == s.log
  {
    hide NewlyPublished;
  }

  lemma {:induction false} CommitIsFollowed(s: Node, from: NodeId, req: Rpc)
    requires req.AppendRequest? && Acknowledges(s, from, req)
    ensures CommitFollowed(s, req, HandleAppendRequest(s, from, req))
  {
    hide Compare, Acknowledge, HandleAppendRequest, Acknowledges;
    AcknowledgedState(s, from, req);
    var f, n := Following(s, req.leader), Compare(s.log, req.prevIndex, req.entries, 0).count;
    hide Following;
    AcknowledgeFollows(Install(f, req, n), from, req);
  }

  /** Nothing was stored or committed, and one refusal under the request's own id was queued. */
  predicate Refused(s: Node, from: NodeId, req: Rpc, s': Node)
    requires req.AppendRequest?
  {
    && s'.Hard() == s.Hard() && s'.saves == s.saves && s'.commit == s.commit && s'.published == s.published
    && |s'.outbox| == |s.outbox| + 1 && s.outbox <= s'.outbox
    && var m := s'.outbox[|s.outbox|];
    && m.to == from && m.rpc.AppendResponse? && !m.rpc.success
    && m.rpc.term == s.term && m.rpc.requestId == req.requestId
  }

  lemma RejectRefuses(s: Node, from: NodeId, req: Rpc, index: nat, term: Option<nat>)
    requires req.AppendRequest?
    ensures Refused(s, from, req, Reject(s, from, req, index, term))
  {
  }

  lemma {:induction false} ReconcileRefuses(s: Node, from: NodeId, req: Rpc)
    requires req.AppendRequest?
    requires PrevMatches(s.log, req) ==>
               var o := Compare(s.log, req.prevIndex, req.entries, 0);
               o.Corrupt? || (o.Conflict? && req.prevIndex + o.count < s.commit)
    ensures if PrevMatches(s.log, req) && Compare(s.log, req.prevIndex, req.entries, 0).Corrupt?
            then Reconcile(s, from, req) == s
            else Refused(s, from, req, Reconcile(s, from, req))
  {
    hide Compare, ConflictStart, Reject, Refused, Accept;
    if req.prevIndex > |s.log| {
      RejectRefuses(s, from, req, |s.log| + 1, None);
    } else if !PrevMatches(s.log, req) {
      RejectRefuses(s, from, req, ConflictStart(s.log, req.prevIndex), Some(s.log[req.prevIndex - 1].term));
    } else {
      CompareBounds(s.log, req.prevIndex, req.entries, 0);
      var x := req.prevIndex + Compare(s.log, req.prevIndex, req.entries, 0).count;
      RejectRefuses(s, from, req, x + 1, Some(s.log[x].term));
    }
  }

  /** Any request that is not acknowledged is refused, or it throws. */
  lemma {:induction false} RefusedOtherwise(s: Node, from: NodeId, req: Rpc)
    requires req.AppendRequest? && !Acknowledges(s, from, req)
    ensures var s' := HandleAppendRequest(s, from, req);
            if HandlerThrows(s, from, req)
            then s'.Hard() == s.Hard() && s'.saves == s.saves && s'.commit == s.commit && s'.outbox == s.outbox
            else Refused(s, from, req, s')
  {
    hide Compare, EntriesFit, Reconcile, Reject, PrevMatches;
    RejectRefuses(s, from, req, |s.log| + 1, None);
    if Addressed(s, from, req) {
      ReconcileRefuses(Following(s, req.leader), from, req);
    }
  }

  // ---- Replies to a leader ----------------------------------------------------------------------

  /** A success reply that fits the log, part of it or the whole, is recorded. If it completes a majority
      the commit index rises and every peer is told; otherwise a peer that is still behind is sent the
      rest. */
  ghost predicate SuccessTaken(s: Node, from: NodeId, resp: Rpc, s': Node)
    requires resp.AppendResponse? && Tracks(s, from) && forall p | p in s.peers :: Tracks(s, p)
  {
    && s'.log == s.log && s'.term == s.term && s'.role == Leader && s'.saves == s.saves
    && s'.matched == s.matched[from := Max(s.matched[from], resp.matchIndex)]
    && s'.next == s.next[from := Max(s.next[from], resp.matchIndex + 1)]
    && LargestOnMajority(s', s.commit, s'.commit)
    && Tracks(Unsent(s, s'), from) && (forall p | p in s.peers :: Tracks(Unsent(s, s'), p))
    && if s'.commit > s.commit then SentTo(Unsent(s, s'), s', s.peers)
       else if s'.matched[from] < |s.log| then SentTo(Unsent(s, s'), s', [from])
       else s'.outbox == s.outbox && s'.requestId == s.requestId
  }

  /** The leader's books once the reply is entered, before it scans and sends. */
  function Entered(s: Node, from: NodeId, resp: Rpc): Node
    requires resp.AppendResponse? && Tracks(s, from)
  {
    s.(matched := s.matched[from := Max(s.matched[from], resp.matchIndex)],
       next := s.next[from := Max(s.next[from], resp.matchIndex + 1)])
  }

  lemma {:induction false} EnteredTracks(s: Node, from: NodeId, resp: Rpc)
    requires WellFormed(s) && s.role == Leader && from in s.peers
    requires resp.AppendResponse? && resp.success && resp.term == s.term && resp.matchIndex <= |s.log|
    ensures Tracks(s, from) && (forall p | p in s.peers :: Tracks(s, p))
    ensures var s1 := Entered(s, from, resp);
            var s2 := AdvanceCommit(s1);
            && (forall p | p in s.peers :: Tracks(s1, p))
            && HandleAppendResponse(s, from, resp) ==
               if s2.commit > s.commit then Broadcast(s2)
               else if Lookup(s2.matched, from) < |s2.log| then SendAppend(s2, from)
               else s2
  {
    hide Published, AdvanceCommit, BroadcastTo, SendAppend;
    assert Tracks(s, from);
    AdvanceQuiet(Entered(s, from, resp));
  }

  lemma {:induction false} SuccessRecorded(s: Node, from: NodeId, resp: Rpc)
    requires WellFormed(s) && s.role == Leader && from in s.peers
    requires resp.AppendResponse? && resp.success && resp.term == s.term && resp.matchIndex <= |s.log|
    ensures Tracks(s, from) && (forall p | p in s.peers :: Tracks(s, p))
    ensures SuccessTaken(s, from, resp, HandleAppendResponse(s, from, resp))
  {
    hide AdvanceCommit, BroadcastTo, SendAppend, HandleAppendResponse, SentTo, Tracks, ValidConfig, Published;
    EnteredTracks(s, from, resp);
    var s1, s' := Entered(s, from, resp), HandleAppendResponse(s, from, resp);
    AdvanceAndSend(s1);
    hide WellFormed;
    var s2 := AdvanceCommit(s1);
    SendAppendReaches(s2, from);
    SentFacts(s2, SendAppend(s2, from), [from]);
    SentFacts(s2, Broadcast(s2), s.peers);
    assert Unsent(s, s') == s2;
    MajoritySame(s1, s', s.commit, s'.commit);
  }

  /** A reply of another term, to a node that does not lead, or beyond the log changes nothing, and
      neither does a refusal of any request but the latest. */
  lemma ReplyIgnored(s: Node, from: NodeId, resp: Rpc)
    requires resp.AppendResponse? && from in s.requestId
    requires s.role != Leader || resp.term != s.term || (resp.success && resp.matchIndex > |s.log|)
             || (!resp.success && resp.requestId != s.requestId[from])
    ensures HandleAppendResponse(s, from, resp) == s
  {
  }

  /** Where a refusal sends the leader: just past its own last entry of the conflict term if it has one,
      else to the conflict index, inside the log and never below what is matched. */
  ghost predicate Resumes(s: Node, from: NodeId, resp: Rpc, next: nat)
    requires resp.AppendResponse? && Tracks(s, from)
  {
    if resp.conflictTerm.Some? && exists j :: 0 <= j < |s.log| && s.log[j].term == resp.conflictTerm.value then
      exists k: nat ::
        && k < |s.log| && s.log[k].term == resp.conflictTerm.value
        && (forall j | k < j < |s.log| :: s.log[j].term != resp.conflictTerm.value)
        && next == Max(k + 2, s.matched[from] + 1)
    else next == Max(Min(Max(resp.conflictIndex, 1), |s.log| + 1), s.matched[from] + 1)
  }

  lemma {:induction false} ResumesThere(s: Node, from: NodeId, resp: Rpc)
    requires resp.AppendResponse? && Tracks(s, from)
    ensures Resumes(s, from, resp, Max(ResumeAt(s.log, resp), s.matched[from] + 1))
  {
    hide LastOfTerm;
    if resp.conflictTerm.Some? {
      LastOfTermHolds(s.log, |s.log|, resp.conflictTerm.value);
      var found := LastOfTerm(s.log, |s.log|, resp.conflictTerm.value);
      if found > 0 {
        var k: nat := found - 1;
        assert s.log[k].term == resp.conflictTerm.value;
      }
    }
  }

  /** A refusal of the latest request moves the next index there and sends the peer the next request. */
  lemma {:induction false} RefusalTaken(s: Node, from: NodeId, resp: Rpc)
    requires WellFormed(s) && s.role == Leader && from in s.peers
    requires resp.AppendResponse? && !resp.success && resp.term == s.term
    requires from in s.requestId && resp.requestId == s.requestId[from]
    ensures var s' := HandleAppendResponse(s, from, resp);
            && Tracks(s, from) && from in s'.next && Resumes(s, from, resp, s'.next[from])
            && s'.next == s.next[from := s'.next[from]] && s'.matched == s.matched && s'.log == s.log
            && s'.commit == s.commit
            && Tracks(Unsent(s, s'), from) && SentTo(Unsent(s, s'), s', [from])
  {
    hide Published, ResumeAt, SentTo;
    assert Tracks(s, from);
    ResumesThere(s, from, resp);
    ResumeBounds(s.log, resp);
    hide Resumes;
    var next := Max(ResumeAt(s.log, resp), s.matched[from] + 1);
    var s1 := s.(next := s.next[from := next]);
    assert Tracks(s1, from);
    SendAppendReaches(s1, from);
    SendAppendQuiet(s1, from);
    hide SendAppend;
    var s' := HandleAppendResponse(s, from, resp);
    assert s' == SendAppend(s1, from);
    assert Unsent(s, s') == s1;
  }

  lemma ResumeBounds(log: seq<LogEntry>, resp: Rpc)
    requires resp.AppendResponse?
    ensures ResumeAt(log, resp) <= |log| + 1
  {
    hide LastOfTerm;
  }

  lemma SendAppendQuiet(s: Node, p: NodeId)
    ensures SendAppend(s, p) == s.(requestId := SendAppend(s, p).requestId, outbox := SendAppend(s, p).outbox)
  {
  }

  /** One more vote makes a leader exactly when it completes a majority. */
  lemma {:induction false} VoteCounts(s: Node, from: NodeId)
    requires s.role == Candidate && s.votes <= s.Members() && from in s.Members()
    ensures var s' := HandleVoteResponse(s, from, VoteResponse(s.term, true));
            if Majority(s.votes + {from}, s.Members()) then s'.role == Leader && s'.term == s.term
            else s' == s.(votes := s.votes + {from})
  {
    hide BecomeLeader, Majority;
    var s1 := s.(votes := s.votes + {from});
    assert s1.Members() == s.Members();
    QuorumIsMajority(s1, s1.votes);
    LeadsItsTerm(s1);
  }
}
