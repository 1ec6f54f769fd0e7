/** `RaftNode` itself: the fields, methods and loops of src/raft/raft_node.cpp, each method proved to
    take the node to the state the specification gives. */
module RaftNode {
  import opened RaftTypes
  import Spec = NodeSpec
  import Lifetime
  import Persistence
  import Replies
  import Duties
  import CommitScan
  import History

  /** The storage contract, with everything it was given since the process started. */
  class RaftStorage {
    var state: HardState
    ghost var saves: seq<HardState>

    constructor (initial: HardState)
      ensures state == initial && saves == [initial]
    {
      state := initial;
      saves := [initial];
    }

    ghost predicate Valid()
      reads this
    {
      saves != [] && saves[|saves| - 1] == state
    }

    /** Loading gives back the state of the last save. */
    method Load() returns (hard: HardState)
      requires Valid()
      ensures hard == saves[|saves| - 1]
    {
      hard := state;
    }

    method Save(hard: HardState)
      modifies this
      ensures Valid() && saves == old(saves) + [hard]
    {
      state := hard;
      saves := saves + [hard];
    }
  }

  datatype StepOutcome = Ignored | Handled | Threw

  datatype StartResult =
    | Started(node: RaftNode)
    | InvalidTiming
    | DuplicateMember
    | MissingStorage
    | ForeignVote
    | InvalidLog

  /** The timing part of the configuration, in milliseconds. */
  datatype Timing = Timing(heartbeat: int, electionMin: int, electionMax: int) {
    predicate Valid() {
      0 < heartbeat < electionMin <= electionMax
    }
  }

  datatype Timers = Timers(heartbeatElapsed: nat, electionElapsed: nat, electionTimeout: nat) {
    /** Neither timer has run out, and the election timeout was drawn from its range. */
    predicate Running(timing: Timing) {
      && heartbeatElapsed < timing.heartbeat
      && electionElapsed < electionTimeout
      && timing.electionMin <= electionTimeout <= timing.electionMax
    }
  }

  datatype TickOutcome = NegativeTime | Waiting | Expired

  /** The largest index the type of the source can hold. */
  const MAX_INDEX: nat := 0xFFFF_FFFF_FFFF_FFFF

  datatype RequestOutcome = NotARequest | NoResponse | Response(message: Message) | RequestThrew

  const SENTINEL := LogEntry(0, [], false)

  class RaftNode {
    const id: NodeId
    const peers: seq<NodeId>
    const members: set<NodeId>
    const storage: RaftStorage
    const timing: Timing

    var state: Role
    var currentTerm: nat
    var votedFor: Option<NodeId>
    var leaderId: Option<NodeId>
    var log: seq<LogEntry>       // starts with the sentinel, so that indexes are one-based
    var commitIndex: nat
    var lastApplied: nat
    var votesReceived: set<NodeId>
    var nextIndex: map<NodeId, nat>
    var matchIndex: map<NodeId, nat>
    var appendRequestId: map<NodeId, nat>
    var outbox: seq<Message>
    var committedEntries: seq<CommittedEntry>
    var timers: Timers
    ghost var delivered: seq<CommittedEntry>  // what the consumer has taken so far

    ghost predicate Shape()
      reads this, storage
    {
      && |log| > 0 && log[0] == SENTINEL
      && members == {id} + Elements(peers)
      && storage.Valid()
      && timing.Valid() && timers.Running(timing)
    }

    /** The node as a value. */
    ghost function Abs(): Spec.Node
      reads this, storage
      requires Shape()
    {
      Spec.Node(id, peers, state, currentTerm, votedFor, leaderId, log[1..], commitIndex, lastApplied,
                votesReceived, nextIndex, matchIndex, appendRequestId,
                outbox, delivered + committedEntries, storage.saves)
    }

    ghost predicate Valid()
      reads this, storage
    {
      Shape() && Spec.WellFormed(Abs())
    }

    constructor (id: NodeId, peers: seq<NodeId>, timing: Timing, storage: RaftStorage, hard: HardState)
      requires storage.Valid() && storage.saves == [hard] && timing.Valid()
      ensures Shape() && this.id == id && this.peers == peers && this.storage == storage && this.timing == timing
      ensures Abs() == Spec.Recovered(id, peers, hard)
    {
      this.id, this.peers, this.timing, this.storage := id, peers, timing, storage;
      members := {id} + Elements(peers);
      state, currentTerm, votedFor, leaderId := Follower, hard.term, hard.vote, None;
      log := [SENTINEL] + hard.log;
      commitIndex, lastApplied := 0, 0;
      votesReceived, nextIndex, matchIndex, appendRequestId := {}, map[], map[], map[];
      outbox, committedEntries := [], [];
      delivered := [];
      var timeout: nat :| timing.electionMin <= timeout <= timing.electionMax;
      timers := Timers(0, 0, timeout);
    }

    /** The checks of the constructor, in its order. A node starts exactly from a valid configuration
        and a recoverable stored state, and then it is the recovered node. */
    static method Start(id: NodeId, peers: seq<NodeId>, timing: Timing, storage: RaftStorage?) returns (r: StartResult)
      requires storage != null ==> storage.Valid()
      modifies if storage == null then {} else {storage}
      ensures storage != null ==> storage.Valid() && storage.state == old(storage.state)
      ensures r.Started? <==> timing.Valid() && Spec.ValidConfig(id, peers) && storage != null &&
                              Spec.Recoverable(id, peers, storage.state)
      ensures r.InvalidTiming? <==> !timing.Valid()
      ensures r.DuplicateMember? <==> timing.Valid() && !Spec.ValidConfig(id, peers)
      ensures r.MissingStorage? <==> timing.Valid() && Spec.ValidConfig(id, peers) && storage == null
      ensures r.ForeignVote? <==> timing.Valid() && Spec.ValidConfig(id, peers) && storage != null &&
                                  storage.state.vote.Some? && storage.state.vote.value !in {id} + Elements(peers)
      ensures r.Started? ==> fresh(r.node) && r.node.storage == storage && r.node.timing == timing && r.node.Valid()
                             && r.node.Abs() == Spec.Recovered(id, peers, storage.state)
    {
      hide Ascending, TermsAtMost, Distinct, Spec.WellFormed;
      if !timing.Valid() {
        return InvalidTiming;
      }
      var valid, members := CheckMembers(id, peers);
      if !valid {
        return DuplicateMember;
      }
      if storage == null {
        return MissingStorage;
      }
      var hard := storage.Load();
      storage.saves := [hard];
      if hard.vote.Some? && hard.vote.value !in members {
        return ForeignVote;
      }
      var fits := CheckLog(hard.log, hard.term);
      if !fits {
        return InvalidLog;
      }
      Lifetime.RecoveredWellFormed(id, peers, hard);
      var node := new RaftNode(id, peers, timing, storage, hard);
      r := Started(node);
    }

    static method CheckMembers(id: NodeId, peers: seq<NodeId>) returns (valid: bool, members: set<NodeId>)
      ensures valid <==> Spec.ValidConfig(id, peers)
      ensures valid ==> members == {id} + Elements(peers)
    {
      members := {id};
      for i := 0 to |peers|
        invariant members == {id} + Elements(peers[..i])
        invariant Spec.ValidConfig(id, peers[..i])
      {
        if peers[i] in members {
          assert peers[i] == id || peers[i] in peers[..i];
          return false, members;
        }
        assert peers[..i + 1] == peers[..i] + [peers[i]];
        members := members + {peers[i]};
      }
      assert peers[..|peers|] == peers;
      return true, members;
    }

    static method CheckLog(log: seq<LogEntry>, term: nat) returns (fits: bool)
      ensures fits <==> Ascending(log) && TermsAtMost(log, term)
    {
      var previousTerm := 0;
      for i := 0 to |log|
        invariant Ascending(log[..i]) && TermsAtMost(log[..i], term)
        invariant previousTerm == LastTerm(log[..i])
      {
        var entry := log[i];
        if entry.term == 0 || entry.term > term || entry.term < previousTerm {
          assert i > 0 ==> log[i - 1].term == previousTerm;
          return false;
        }
        assert log[..i + 1] == log[..i] + [entry];
        previousTerm := entry.term;
      }
      assert log[..|log|] == log;
      return true;
    }

    // ---- Small helpers ------------------------------------------------------------------------

    function LastLogIndex(): (i: nat)
      reads this, storage
      requires Shape()
      ensures i == |Abs().log|
    {
      |log| - 1
    }

    function LastLogTerm(): (t: nat)
      reads this, storage
      requires Shape()
      ensures t == LastTerm(Abs().log)
    {
      log[|log| - 1].term
    }

    function QuorumSize(): (q: nat)
      reads this, storage
      requires Shape()
      ensures q == Abs().Quorum()
    {
      |members| / 2 + 1
    }

    method Persist()
      requires Shape()
      modifies storage
      ensures Shape() && Abs() == old(Abs()).Persist()
    {
      storage.Save(HardState(currentTerm, votedFor, log[1..]));
    }

    /** Draw a new timeout and start waiting for it. */
    method ResetElectionTimeout()
      requires Shape()
      modifies this`timers
      ensures Shape() && Abs() == old(Abs())
      ensures timers.electionElapsed == 0 && timers.heartbeatElapsed == old(timers.heartbeatElapsed)
    {
      var timeout: nat :| timing.electionMin <= timeout <= timing.electionMax;
      timers := timers.(electionElapsed := 0, electionTimeout := timeout);
    }

    method Send(peer: NodeId, rpc: Rpc)
      requires Shape()
      modifies this`outbox
      ensures Shape() && Abs() == old(Abs()).Send(peer, rpc)
    {
      outbox := outbox + [Message(id, peer, rpc)];
    }

    // ---- Role changes ---------------------------------------------------------------------------

    method BecomeFollower(term: nat, leader: Option<NodeId>)
      requires Shape()
      modifies this, storage
      ensures Shape() && Abs() == Spec.BecomeFollower(old(Abs()), term, leader) && delivered == old(delivered)
      ensures timers.electionElapsed == 0 && timers.heartbeatElapsed == 0
    {
      var termChanged := term > currentTerm;
      if termChanged {
        currentTerm := term;
        votedFor := None;
      }
      ForgetLeadership(leader);
      timers := timers.(heartbeatElapsed := 0);
      ResetElectionTimeout();
      if termChanged {
        Persist();
      }
    }

    /** The volatile fields of a node that steps down. */
    method ForgetLeadership(leader: Option<NodeId>)
      requires Shape()
      modifies this`state, this`leaderId, this`votesReceived, this`nextIndex, this`matchIndex, this`appendRequestId
      ensures Shape() && Abs() == old(Abs()).(role := Follower, leader := leader, votes := {},
                                              next := map[], matched := map[], requestId := map[])
    {
      hide Elements;
      ghost var s := Abs();
      state := Follower;
      leaderId := leader;
      votesReceived := {};
      assert Abs() == s.(role := Follower, leader := leader, votes := {});
      nextIndex := map[];
      matchIndex := map[];
      appendRequestId := map[];
    }

    /** Take the next term and vote for oneself, saved. */
    method StandForElection()
      requires Shape()
      modifies this, storage
      ensures Shape() && Abs() == Spec.Candidacy(old(Abs())) && delivered == old(delivered)
      ensures timers.electionElapsed == 0
    {
      hide Elements;
      ghost var s := Abs();
      state := Candidate;
      leaderId := None;
      currentTerm := currentTerm + 1;
      assert Abs() == s.(role := Candidate, leader := None, term := s.term + 1);
      votedFor := Some(id);
      votesReceived := {id};
      assert Abs() == s.(role := Candidate, leader := None, term := s.term + 1, vote := Some(s.id), votes := {s.id});
      ResetElectionTimeout();
      Persist();
    }

    method StartElection()
      requires Valid()
      modifies this, storage
      ensures Shape() && Abs() == Spec.StartElection(old(Abs())) && delivered == old(delivered)
      ensures Duties.Stood(old(Abs()), Abs())
      ensures timers.electionElapsed == 0
    {
      Duties.ElectionStarts(Abs());
      hide Duties.Stood;
      hide Spec.WellFormed, Spec.Candidacy, Spec.BecomeLeader, Spec.VoteRequests;
      ghost var s := Abs();
      StandForElection();
      Lifetime.CandidacyFine(s);
      if |votesReceived| >= QuorumSize() {
        BecomeLeader();
        return;
      }
      RequestVotes();
    }

    method RequestVotes()
      requires Shape()
      modifies this`outbox
      ensures Shape() && Abs() == old(Abs()).(outbox := old(outbox) + Spec.VoteRequests(old(Abs()), peers))
    {
      ghost var s := Abs();
      var request := VoteRequest(currentTerm, id, LastLogIndex(), LastLogTerm());
      for i := 0 to |peers|
        invariant Shape() && outbox == s.outbox + Spec.VoteRequests(s, peers[..i])
      {
        outbox := outbox + [Message(id, peers[i], request)];
        assert peers[..i + 1][..i] == peers[..i];
      }
      assert peers[..|peers|] == peers;
    }

    /** Start tracking every peer from the end of the log. */
    method TrackPeers(next: nat)
      requires Shape()
      modifies this`nextIndex, this`matchIndex, this`appendRequestId
      ensures nextIndex == Spec.Assign(old(nextIndex), peers, next)
      ensures matchIndex == Spec.Assign(old(matchIndex), peers, 0)
      ensures appendRequestId == Spec.Assign(old(appendRequestId), peers, 0)
    {
      for i := 0 to |peers|
        invariant nextIndex == Spec.Assign(old(nextIndex), peers[..i], next)
        invariant matchIndex == Spec.Assign(old(matchIndex), peers[..i], 0)
        invariant appendRequestId == Spec.Assign(old(appendRequestId), peers[..i], 0)
      {
        var peer := peers[i];
        nextIndex := nextIndex[peer := next];
        matchIndex := matchIndex[peer := 0];
        appendRequestId := appendRequestId[peer := 0];
        assert peers[..i + 1][..i] == peers[..i];
      }
      assert peers[..|peers|] == peers;
    }

    /** The book-keeping of a new leader and its no-op entry, saved. */
    method TakeLeadership()
      requires Shape()
      modifies this, storage
      ensures Shape() && Abs() == Spec.Crowned(old(Abs())) && delivered == old(delivered)
      ensures timers == old(timers).(heartbeatElapsed := 0)
    {
      hide Spec.Assign, Elements;
      ghost var s := Abs();
      state := Leader;
      leaderId := Some(id);
      timers := timers.(heartbeatElapsed := 0);
      TrackPeers(LastLogIndex() + 1);
      log := log + [LogEntry(currentTerm, [], true)];
      assert log[1..] == s.log + [LogEntry(currentTerm, [], true)];
      Persist();
    }

    method BecomeLeader()
      requires Valid()
      modifies this, storage
      ensures Shape() && Abs() == Spec.BecomeLeader(old(Abs())) && delivered == old(delivered)
      ensures timers == old(timers).(heartbeatElapsed := 0)
    {
      hide Spec.WellFormed, Spec.Crowned, Spec.AdvanceCommit, Spec.BroadcastTo, CommitScan.LargestOnMajority;
      ghost var s := Abs();
      TakeLeadership();
      Lifetime.LeaderReady(s);
      var advanced := AdvanceCommitIndex();
      BroadcastAppendEntries();
    }

    // ---- Replication ----------------------------------------------------------------------------

    method SendAppendEntries(peer: NodeId)
      requires Shape() && Spec.Tracks(Abs(), peer)
      modifies this`appendRequestId, this`outbox
      ensures Shape() && Abs() == Spec.SendAppend(old(Abs()), peer)
    {
      var next := nextIndex[peer];
      var previous := next - 1;
      var entries := log[next..];
      assert entries == log[1..][previous..];
      var requestId := appendRequestId[peer] + 1;
      appendRequestId := appendRequestId[peer := requestId];
      Send(peer, AppendRequest(currentTerm, id, previous, log[previous].term, entries, commitIndex, requestId));
    }

    method BroadcastAppendEntries()
      requires Shape() && forall p | p in peers :: Spec.Tracks(Abs(), p)
      modifies this`appendRequestId, this`outbox
      ensures Shape() && Abs() == Spec.Broadcast(old(Abs()))
    {
      hide Elements, Spec.SendAppend, Spec.Tracks;
      ghost var s := Abs();
      for i := 0 to |peers|
        invariant Shape()
        invariant Abs() == Spec.BroadcastTo(s, peers[..i])
        invariant forall p | p in peers :: Spec.Tracks(Abs(), p)
      {
        SentStillTracks(Abs(), peers[i], peers);
        SendAppendEntries(peers[i]);
        assert peers[..i + 1][..i] == peers[..i];
      }
      assert peers[..|peers|] == peers;
    }

    /** Apply one more entry. */
    method ApplyNext()
      requires Shape() && lastApplied < LastLogIndex()
      modifies this`lastApplied, this`committedEntries
      ensures Shape()
      ensures Abs() == var s, k := old(Abs()), old(lastApplied);
                       s.(applied := k + 1,
                          published := s.published + if s.log[k].isNoOp then []
                                                     else [CommittedEntry(k + 1, s.log[k].term, s.log[k].command)])
    {
      hide Elements;
      lastApplied := lastApplied + 1;
      var entry := log[lastApplied];
      assert entry == log[1..][lastApplied - 1];
      if !entry.isNoOp {
        var record := CommittedEntry(lastApplied, entry.term, entry.command);
        assert delivered + (committedEntries + [record]) == delivered + committedEntries + [record];
        committedEntries := committedEntries + [record];
      }
    }

    method ApplyCommittedEntries()
      requires Shape() && commitIndex <= LastLogIndex()
      modifies this`lastApplied, this`committedEntries
      ensures Shape()
      ensures Abs() == var s := old(Abs());
                       s.(applied := Max(s.applied, s.commit),
                          published := s.published + Spec.NewlyPublished(s.log, s.applied, s.commit))
    {
      hide Elements;
      ghost var s := Abs();
      assert s.published + [] == s.published;
      while lastApplied < commitIndex
        invariant Shape()
        invariant s.applied <= lastApplied
        invariant lastApplied <= commitIndex ==>
                    Abs() == s.(applied := lastApplied,
                                published := s.published + Spec.NewlyPublished(s.log, s.applied, lastApplied))
        invariant lastApplied > commitIndex ==> Abs() == s
      {
        ghost var k := lastApplied;
        ApplyNext();
        AppliedNext(s, k);
      }
    }

    /** Count the members known to hold an index, this node included. */
    method CountReplicas(candidate: nat) returns (replicated: nat)
      requires Shape() && candidate > 0
      ensures replicated == 1 + Spec.CountAtLeast(matchIndex, peers, candidate)
    {
      replicated := 1;
      for j := 0 to |peers|
        invariant replicated == 1 + Spec.CountAtLeast(matchIndex, peers[..j], candidate)
      {
        if peers[j] in matchIndex && matchIndex[peers[j]] >= candidate {
          replicated := replicated + 1;
        }
        assert peers[..j + 1][..j] == peers[..j];
      }
      assert peers[..|peers|] == peers;
    }

    /** Scan down from the end of the log for an entry of the current term on a quorum. */
    method FindCommitTarget() returns (target: nat)
      requires Shape()
      ensures target == Spec.CommitTarget(Abs(), |Abs().log|)
      ensures target > commitIndex ==> target <= LastLogIndex()
    {
      hide Spec.CountAtLeast, Elements;
      ghost var s := Abs();
      var candidate: nat := LastLogIndex();
      while candidate > commitIndex
        invariant candidate <= |s.log| && Spec.CommitTarget(s, candidate) == Spec.CommitTarget(s, |s.log|)
      {
        if log[candidate].term == currentTerm {
          var replicated := CountReplicas(candidate);
          if replicated >= QuorumSize() {
            return candidate;
          }
        }
        candidate := candidate - 1;
      }
      target := commitIndex;
    }

    method AdvanceCommitIndex() returns (advanced: bool)
      requires Shape()
      modifies this`commitIndex, this`lastApplied, this`committedEntries
      ensures Shape() && Abs() == Spec.AdvanceCommit(old(Abs()))
      ensures Spec.ValidConfig(id, peers) ==> CommitScan.LargestOnMajority(old(Abs()), old(commitIndex), commitIndex)
      ensures advanced <==> Abs().commit > old(Abs()).commit
    {
      if Spec.ValidConfig(id, peers) {
        CommitScan.AdvanceIsLargest(Abs());
      }
      hide CommitScan.LargestOnMajority, Spec.ValidConfig, Spec.CommitTarget, Spec.NewlyPublished, Elements;
      var target := FindCommitTarget();
      advanced := target > commitIndex;
      if advanced {
        commitIndex := target;
        ApplyCommittedEntries();
      }
    }

    // ---- Message handlers -----------------------------------------------------------------------

    method HandleRequestVote(from: NodeId, request: Rpc)
      requires Shape() && request.VoteRequest?
      modifies this, storage
      ensures Shape() && Abs() == Spec.HandleVoteRequest(old(Abs()), from, request) && delivered == old(delivered)
      ensures if Persistence.Grants(old(Abs()), from, request) then timers.electionElapsed == 0
              else timers == old(timers)
    {
      if request.candidate != from || request.term < currentTerm {
        Send(from, VoteResponse(currentTerm, false));
        return;
      }
      var canVote := votedFor == None || votedFor == Some(request.candidate);
      var candidateIsCurrent := request.lastTerm > LastLogTerm() ||
                                (request.lastTerm == LastLogTerm() && request.lastIndex >= LastLogIndex());
      var grantVote := canVote && candidateIsCurrent;
      if grantVote {
        if votedFor != Some(request.candidate) {
          votedFor := Some(request.candidate);
          Persist();
        }
        ResetElectionTimeout();
      }
      Send(from, VoteResponse(currentTerm, grantVote));
    }

    method HandleRequestVoteResponse(from: NodeId, response: Rpc)
      requires Valid() && response.VoteResponse? && Abs().IsPeer(from)
      modifies this, storage
      ensures Shape() && Abs() == Spec.HandleVoteResponse(old(Abs()), from, response) && delivered == old(delivered)
      ensures old(state) == Candidate && response.term == old(currentTerm) && response.granted ==>
                (state == Leader <==> History.Majority(old(votesReceived) + {from}, members))
      ensures timers.electionElapsed == old(timers.electionElapsed)
      ensures timers.electionTimeout == old(timers.electionTimeout)
    {
      if state != Candidate || response.term != currentTerm || !response.granted {
        return;
      }
      Lifetime.CountedFine(Abs(), from);
      Duties.VoteCounts(Abs(), from);
      hide History.Majority, Spec.BecomeLeader, Spec.WellFormed;
      votesReceived := votesReceived + {from};
      if |votesReceived| >= QuorumSize() {
        BecomeLeader();
      }
    }

    /** Does some entry have term 0 or a term above that of the request? */
    static method AnyUnfit(request: Rpc) returns (unfit: bool)
      requires request.AppendRequest?
      ensures unfit <==> !Spec.EntriesFit(request)
    {
      for i := 0 to |request.entries|
        invariant forall j | 0 <= j < i :: 0 < request.entries[j].term <= request.term
      {
        if request.entries[i].term == 0 || request.entries[i].term > request.term {
          assert request.entries[i] in request.entries;
          return true;
        }
      }
      unfit := false;
    }

    method FindConflictStart(index: nat) returns (conflictIndex: nat)
      requires Shape() && 0 < index <= LastLogIndex()
      ensures conflictIndex == Spec.ConflictStart(log[1..], index)
    {
      conflictIndex := index;
      while conflictIndex > 1 && log[conflictIndex - 1].term == log[index].term
        invariant 0 < conflictIndex <= index
        invariant log[conflictIndex].term == log[index].term
        invariant Spec.ConflictStart(log[1..], conflictIndex) == Spec.ConflictStart(log[1..], index)
      {
        conflictIndex := conflictIndex - 1;
      }
    }

    method Reject(from: NodeId, request: Rpc, conflictIndex: nat, conflictTerm: Option<nat>)
      requires Shape() && request.AppendRequest?
      modifies this`outbox
      ensures Shape()
      ensures Abs() == Spec.Reject(old(Abs()), from, request, conflictIndex, conflictTerm)
    {
      Send(from, AppendResponse(currentTerm, false, 0, conflictIndex, conflictTerm, request.requestId));
    }

    /** The comparison loop: how many offered entries the log already holds, and why it stopped. */
    method CompareEntries(request: Rpc) returns (overlap: Spec.Overlap)
      requires Shape() && request.AppendRequest? && request.prevIndex <= LastLogIndex()
      ensures overlap == Spec.Compare(log[1..], request.prevIndex, request.entries, 0)
      ensures overlap.count <= |request.entries| && request.prevIndex + overlap.count <= |log| - 1
    {
      var offset := 0;
      var entryIndex := request.prevIndex + 1;
      while offset < |request.entries| && entryIndex <= LastLogIndex()
        invariant offset <= |request.entries| && entryIndex == request.prevIndex + offset + 1 <= |log|
        invariant Spec.Compare(log[1..], request.prevIndex, request.entries, offset)
               == Spec.Compare(log[1..], request.prevIndex, request.entries, 0)
      {
        var local, incoming := log[entryIndex], request.entries[offset];
        if local.term != incoming.term {
          return Spec.Conflict(offset);
        }
        if local != incoming {
          return Spec.Corrupt(offset);
        }
        offset := offset + 1;
        entryIndex := entryIndex + 1;
      }
      overlap := Spec.Reached(offset);
    }

    /** Truncate at a conflict, append what is missing, and save if the log changed. */
    method InstallEntries(request: Rpc, overlap: Spec.Overlap)
      requires Shape() && request.AppendRequest? && !overlap.Corrupt?
      requires overlap.count <= |request.entries| && request.prevIndex + overlap.count <= LastLogIndex()
      requires overlap.Reached? ==>
                 overlap.count == |request.entries| || request.prevIndex + overlap.count == LastLogIndex()
      requires overlap.Conflict? ==> overlap.count < |request.entries|
      modifies this`log, storage
      ensures Shape() && Abs() == Spec.Install(old(Abs()), request, overlap.count)
    {
      ghost var s := Abs();
      var n := overlap.count;
      var logChanged := false;
      if overlap.Conflict? {
        log := log[..request.prevIndex + n + 1];
        logChanged := true;
      }
      if n < |request.entries| {
        log := log + request.entries[n..];
        logChanged := true;
        assert log[1..] == s.log[..request.prevIndex + n] + request.entries[n..];
      }
      if logChanged {
        Persist();
      }
    }

    /** Follow the leader's commit index and reply. */
    method AcknowledgeEntries(from: NodeId, request: Rpc)
      requires Shape() && request.AppendRequest?
      modifies this`commitIndex, this`lastApplied, this`committedEntries, this`outbox
      ensures Shape() && Abs() == Spec.Acknowledge(old(Abs()), from, request)
    {
      if request.leaderCommit > commitIndex {
        commitIndex := Min(request.leaderCommit, LastLogIndex());
        ApplyCommittedEntries();
      }
      var matched := request.prevIndex + |request.entries|;
      Send(from, AppendResponse(currentTerm, true, matched, matched + 1, None, request.requestId));
    }

    method ReconcileEntries(from: NodeId, request: Rpc) returns (thrown: bool)
      requires Shape() && request.AppendRequest?
      modifies this`log, this`commitIndex, this`lastApplied, this`committedEntries, this`outbox, storage
      ensures Shape() && Abs() == Spec.Reconcile(old(Abs()), from, request)
      ensures thrown <==> Spec.PrevMatches(old(Abs()).log, request) &&
                          Spec.Compare(old(Abs()).log, request.prevIndex, request.entries, 0).Corrupt?
    {
      hide Spec.Compare, Spec.Install, Spec.Acknowledge, Spec.ConflictStart;
      thrown := false;
      if request.prevIndex > LastLogIndex() {
        Reject(from, request, LastLogIndex() + 1, None);
        return;
      }
      if request.prevIndex > 0 && log[request.prevIndex].term != request.prevTerm {
        var conflictTerm := log[request.prevIndex].term;
        var conflictIndex := FindConflictStart(request.prevIndex);
        Reject(from, request, conflictIndex, Some(conflictTerm));
        return;
      }
      var overlap := CompareEntries(request);
      Spec.CompareBounds(log[1..], request.prevIndex, request.entries, 0);
      if overlap.Corrupt? {
        thrown := true;
      } else if overlap.Conflict? && request.prevIndex + overlap.count + 1 <= commitIndex {
        var entryIndex := request.prevIndex + overlap.count + 1;
        Reject(from, request, entryIndex, Some(log[entryIndex].term));
      } else {
        InstallEntries(request, overlap);
        AcknowledgeEntries(from, request);
      }
    }

    method HandleAppendEntries(from: NodeId, request: Rpc) returns (thrown: bool)
      requires Shape() && request.AppendRequest?
      modifies this, storage
      ensures Shape() && Abs() == Spec.HandleAppendRequest(old(Abs()), from, request) && delivered == old(delivered)
      ensures thrown <==> Spec.HandlerThrows(old(Abs()), from, request)
      ensures Persistence.Acknowledges(old(Abs()), from, request) ==> Duties.CommitFollowed(old(Abs()), request, Abs())
      ensures if Spec.Addressed(old(Abs()), from, request) then timers.electionElapsed == 0 else timers == old(timers)
    {
      if Persistence.Acknowledges(Abs(), from, request) {
        Duties.CommitIsFollowed(Abs(), from, request);
      }
      hide Persistence.Acknowledges, Duties.CommitFollowed, Spec.HandleAppendRequest;
      hide Spec.Compare, Spec.Reconcile, Spec.EntriesFit, Spec.PrevMatches;
      ghost var s := Abs();
      if request.leader != from || request.term < currentTerm {
        Reject(from, request, LastLogIndex() + 1, None);
        return false;
      }
      var unfit := AnyUnfit(request);
      if unfit {
        Reject(from, request, LastLogIndex() + 1, None);
        return false;
      }
      if state != Follower || leaderId != Some(request.leader) {
        BecomeFollower(currentTerm, Some(request.leader));
      } else {
        ResetElectionTimeout();
      }
      assert Abs() == Spec.Following(s, request.leader);
      thrown := ReconcileEntries(from, request);
    }

    method FindLastOfTerm(term: nat) returns (found: nat)
      requires Shape()
      ensures found == Spec.LastOfTerm(log[1..], |log| - 1, term)
    {
      var index: nat := LastLogIndex();
      while index > 0
        invariant index <= |log| - 1
        invariant Spec.LastOfTerm(log[1..], index, term) == Spec.LastOfTerm(log[1..], |log| - 1, term)
      {
        if log[index].term == term {
          return index;
        }
        index := index - 1;
      }
      found := 0;
    }

    /** A success reply: record it, commit what it completes, and go on replicating. */
    method RecordSuccess(from: NodeId, response: Rpc)
      requires Valid() && response.AppendResponse? && Abs().IsPeer(from)
      requires state == Leader && response.term == currentTerm && response.success
      modifies this
      ensures Shape() && Abs() == Spec.HandleAppendResponse(old(Abs()), from, response) && delivered == old(delivered)
      ensures timers == old(timers)
    {
      hide Spec.AdvanceCommit, Spec.BroadcastTo, Spec.SendAppend, Published, CommitScan.LargestOnMajority, Elements;
      ghost var s := Abs();
      Lifetime.LeaderTracks(s, from);
      if response.matchIndex > LastLogIndex() {
        return;
      }
      matchIndex := matchIndex[from := Max(matchIndex[from], response.matchIndex)];
      nextIndex := nextIndex[from := Max(nextIndex[from], response.matchIndex + 1)];
      ghost var s1 := Abs();
      Lifetime.TrackingFine(s, s1, from);
      Lifetime.AdvanceFine(s1);
      Persistence.AdvanceQuiet(s1);
      var advanced := AdvanceCommitIndex();
      if advanced {
        BroadcastAppendEntries();
      } else if matchIndex[from] < LastLogIndex() {
        SendAppendEntries(from);
      }
    }

    /** A refusal of the latest request: step back and try again. */
    method StepBack(from: NodeId, response: Rpc)
      requires Valid() && response.AppendResponse? && Abs().IsPeer(from)
      requires state == Leader && response.term == currentTerm && !response.success
      modifies this
      ensures Shape() && Abs() == Spec.HandleAppendResponse(old(Abs()), from, response) && delivered == old(delivered)
      ensures timers == old(timers)
    {
      hide Spec.SendAppend, Spec.LastOfTerm, Published;
      ghost var s := Abs();
      Lifetime.LeaderTracks(s, from);
      if appendRequestId[from] != response.requestId {
        return;
      }
      var next := response.conflictIndex;
      if response.conflictTerm.Some? {
        var found := FindLastOfTerm(response.conflictTerm.value);
        if found > 0 {
          next := found + 1;
        }
      }
      next := Min(Max(next, 1), LastLogIndex() + 1);
      LastOfTermFits(log[1..], response);
      assert next == Spec.ResumeAt(s.log, response);
      nextIndex := nextIndex[from := Max(next, matchIndex[from] + 1)];
      SendAppendEntries(from);
    }

    method HandleAppendEntriesResponse(from: NodeId, response: Rpc)
      requires Valid() && response.AppendResponse? && Abs().IsPeer(from)
      modifies this
      ensures Shape() && Abs() == Spec.HandleAppendResponse(old(Abs()), from, response) && delivered == old(delivered)
      ensures old(state) == Leader && response.term == old(currentTerm) && response.success &&
              response.matchIndex <= old(LastLogIndex()) ==>
                Duties.SuccessTaken(old(Abs()), from, response, Abs())
      ensures timers == old(timers)
    {
      if state == Leader && response.term == currentTerm && response.success && response.matchIndex <= LastLogIndex() {
        Lifetime.LeaderTracks(Abs(), from);
        Duties.SuccessRecorded(Abs(), from, response);
      }
      hide Duties.SuccessTaken;
      if state != Leader || response.term != currentTerm {
        return;
      }
      hide Spec.HandleAppendResponse, Spec.WellFormed;
      if response.success {
        RecordSuccess(from, response);
      } else {
        StepBack(from, response);
      }
    }

    // ---- Public calls ---------------------------------------------------------------------------

    method Step(message: Message) returns (outcome: StepOutcome)
      requires Valid()
      modifies this, storage
      ensures Valid() && Abs() == Spec.Receive(old(Abs()), message) && delivered == old(delivered)
      ensures outcome == Ignored <==> !Spec.Accepts(old(Abs()), message)
      ensures outcome == Threw <==> Spec.Throws(old(Abs()), message)
      ensures outcome == Ignored ==> timers == old(timers)
      ensures timers.electionElapsed == 0 || timers.electionElapsed == old(timers.electionElapsed)
    {
      hide Spec.HandleVoteRequest, Spec.HandleVoteResponse, Spec.HandleAppendRequest, Spec.HandleAppendResponse,
        Spec.HandlerThrows, Spec.WellFormed;
      ghost var s := Abs();
      Lifetime.ReceiveFine(s, message);
      if message.to != id || message.from == id || message.from !in members {
        return Ignored;
      }
      if message.rpc.term > currentTerm {
        BecomeFollower(message.rpc.term, None);
      }
      assert Abs() == Spec.AdoptTerm(s, message.rpc.term);
      Lifetime.FollowerFine(s, message.rpc.term, None);
      assert Abs().Members() == s.Members();
      outcome := Handled;
      match message.rpc
      case VoteRequest(_, _, _, _) => HandleRequestVote(message.from, message.rpc);
      case VoteResponse(_, _) => HandleRequestVoteResponse(message.from, message.rpc);
      case AppendRequest(_, _, _, _, _, _, _) =>
        var thrown := HandleAppendEntries(message.from, message.rpc);
        if thrown {
          outcome := Threw;
        }
      case AppendResponse(_, _, _, _, _, _) => HandleAppendEntriesResponse(message.from, message.rpc);
    }

    /** A request is answered directly: the reply is taken out of the outbox, and everything else that
        was or is queued stays there. */
    method HandleRequest(message: Message) returns (r: RequestOutcome)
      requires Valid()
      modifies this, storage
      ensures Valid() && delivered == old(delivered)
      ensures r.NotARequest? <==> !message.rpc.VoteRequest? && !message.rpc.AppendRequest?
      ensures r.NotARequest? ==> Abs() == old(Abs())
      ensures !r.NotARequest? ==> Abs() == Spec.Receive(old(Abs()), message).(outbox := old(outbox))
      ensures !r.NotARequest? ==> (r.NoResponse? <==> !Spec.Accepts(old(Abs()), message))
      ensures !r.NotARequest? ==> (r.RequestThrew? <==> Spec.Throws(old(Abs()), message))
      ensures r.Response? ==> Spec.Receive(old(Abs()), message).outbox == old(outbox) + [r.message]
      ensures r.Response? ==> r.message.from == id && r.message.to == message.from
    {
      hide Spec.Receive, Spec.WellFormed, Spec.Throws;
      if !message.rpc.VoteRequest? && !message.rpc.AppendRequest? {
        return NotARequest;
      }
      ghost var s := Abs();
      var first := |outbox|;
      Replies.OneReply(s, message);
      var outcome := Step(message);
      ghost var s' := Abs();
      Lifetime.QuietFine(s', s'.(outbox := s.outbox));
      if outcome == Ignored {
        return NoResponse;
      }
      if outcome == Threw {
        return RequestThrew;
      }
      for index := first to |outbox|
        invariant Shape() && Abs() == s' && delivered == old(delivered) && index == first
      {
        var isVoteResponse := message.rpc.VoteRequest? && outbox[index].rpc.VoteResponse?;
        var isAppendResponse := message.rpc.AppendRequest? && outbox[index].rpc.AppendResponse? &&
                                outbox[index].rpc.requestId == message.rpc.requestId;
        if outbox[index].to == message.from && (isVoteResponse || isAppendResponse) {
          var response := outbox[index];
          outbox := outbox[..index] + outbox[index + 1..];
          assert outbox == s.outbox;
          return Response(response);
        }
      }
      r := NoResponse;
    }

    /** Is the timer of the node's role due once this much more time has passed? */
    predicate Due(elapsed: nat)
      reads this
    {
      if state == Leader then timers.heartbeatElapsed + elapsed >= timing.heartbeat
      else timers.electionElapsed + elapsed >= timers.electionTimeout
    }

    /** Time passes. The timer that belongs to the role expires exactly when the time since its last
        restart reaches its length, and then starts again from zero; otherwise only that timer moves. */
    method Tick(elapsed: int) returns (outcome: TickOutcome)
      requires Valid()
      modifies this, storage
      ensures Valid() && delivered == old(delivered)
      ensures outcome == NegativeTime <==> elapsed < 0
      ensures outcome == Expired <==> elapsed >= 0 && old(Due(elapsed))
      ensures Abs() == if outcome == Expired then Spec.Tick(old(Abs())) else old(Abs())
      ensures outcome == Expired ==>
                if old(state) == Leader then Replies.SentTo(old(Abs()), Abs(), peers)
                else Duties.Stood(old(Abs()), Abs())
      ensures outcome == Expired && old(state) == Leader ==> timers == old(timers).(heartbeatElapsed := 0)
      ensures outcome == Expired && old(state) != Leader ==> timers.electionElapsed == 0
      ensures outcome == NegativeTime ==> timers == old(timers)
      ensures outcome == Waiting ==>
                timers == if old(state) == Leader
                          then old(timers).(heartbeatElapsed := old(timers.heartbeatElapsed) + elapsed)
                          else old(timers).(electionElapsed := old(timers.electionElapsed) + elapsed)
    {
      if elapsed < 0 {
        return NegativeTime;
      }
      Lifetime.CallFine(Abs(), Spec.OnTick);
      hide Spec.StartElection, Spec.BroadcastTo, Replies.SentTo, Duties.Stood;
      if state == Leader {
        Duties.HeartbeatReaches(Abs());
        if elapsed >= timing.heartbeat - timers.heartbeatElapsed {
          timers := timers.(heartbeatElapsed := 0);
          BroadcastAppendEntries();
          return Expired;
        }
        timers := timers.(heartbeatElapsed := timers.heartbeatElapsed + elapsed);
        return Waiting;
      }
      if elapsed >= timers.electionTimeout - timers.electionElapsed {
        StartElection();
        return Expired;
      }
      timers := timers.(electionElapsed := timers.electionElapsed + elapsed);
      return Waiting;
    }

    /** Only a leader appends, at the returned index, and not past the last index there is. */
    method Propose(command: seq<byte>) returns (index: Option<nat>, overflow: bool)
      requires Valid()
      modifies this, storage
      ensures Valid() && delivered == old(delivered)
      ensures overflow <==> old(state) == Leader && old(|log|) == MAX_INDEX
      ensures Abs() == if overflow then old(Abs()) else Spec.Propose(old(Abs()), command)
      ensures index == if old(state) == Leader && !overflow then Some(|old(Abs()).log| + 1) else None
      ensures index.Some? ==> index.value < |log| && log[index.value] == LogEntry(old(currentTerm), command, false)
      ensures index.Some? ==> Duties.Proposed(old(Abs()), command, Abs())
    {
      if state == Leader {
        Duties.ProposalAppended(Abs(), command);
      }
      hide Duties.Proposed;
      hide Spec.AdvanceCommit, Spec.BroadcastTo;
      ghost var s := Abs();
      Lifetime.CallFine(s, Spec.OnPropose(command));
      if state != Leader {
        return None, false;
      }
      if |log| == MAX_INDEX {
        return None, true;
      }
      log := log + [LogEntry(currentTerm, command, false)];
      assert log[1..] == s.log + [LogEntry(currentTerm, command, false)];
      Persist();
      index, overflow := Some(LastLogIndex()), false;
      ghost var s1 := Abs();
      Lifetime.ExtendedFine(s, LogEntry(s.term, command, false));
      Lifetime.AdvanceFine(s1);
      Persistence.AdvanceQuiet(s1);
      var advanced := AdvanceCommitIndex();
      BroadcastAppendEntries();
    }

    method TakeMessages() returns (messages: seq<Message>)
      requires Valid()
      modifies this`outbox
      ensures Valid() && Abs() == old(Abs()).(outbox := []) && messages == old(outbox)
    {
      messages := outbox;
      outbox := [];
      assert Abs().Members() == old(Abs().Members());
    }

    /** The entries handed out and the stream that remains: nothing is lost, repeated or reordered. */
    method TakeCommittedEntries() returns (entries: seq<CommittedEntry>)
      requires Valid()
      modifies this`committedEntries, this`delivered
      ensures Valid() && Abs() == old(Abs()) && committedEntries == []
      ensures delivered == old(delivered) + entries == Published(log[1..], commitIndex)
    {
      entries := committedEntries;
      delivered := delivered + committedEntries;
      committedEntries := [];
    }
  }

  lemma {:induction false} AppliedNext(s: Spec.Node, k: nat)
    requires s.applied <= k < |s.log|
    ensures s.published + Spec.NewlyPublished(s.log, s.applied, k + 1) ==
            s.published + Spec.NewlyPublished(s.log, s.applied, k) +
            if s.log[k].isNoOp then [] else [CommittedEntry(k + 1, s.log[k].term, s.log[k].command)]
  {
  }

  lemma SentStillTracks(s: Spec.Node, peer: NodeId, peers: seq<NodeId>)
    requires forall p | p in peers :: Spec.Tracks(s, p)
    ensures forall p | p in peers :: Spec.Tracks(Spec.SendAppend(s, peer), p)
  {
  }

  lemma {:induction false} LastOfTermFits(log: seq<LogEntry>, response: Rpc)
    requires response.AppendResponse?
    ensures response.conflictTerm.Some? ==> Spec.LastOfTerm(log, |log|, response.conflictTerm.value) <= |log|
  {
    if response.conflictTerm.Some? {
      LastOfTermBounded(log, |log|, response.conflictTerm.value);
    }
  }

  lemma {:induction false} LastOfTermBounded(log: seq<LogEntry>, index: nat, term: nat)
    requires index <= |log|
    ensures Spec.LastOfTerm(log, index, term) <= index
  {
    if index > 0 {
      LastOfTermBounded(log, index - 1, term);
    }
  }
}
