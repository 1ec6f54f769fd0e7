/** What every call does to storage, under any message whatsoever: the last save of a call is the
    state it ends in, there is at most one save before it, and every message the call queues is
    justified by what storage then holds. */
module Persistence {
  import opened RaftTypes
  import opened NodeSpec

  predicate SameIdentity(s: Node, s': Node) {
    s'.id == s.id && s'.peers == s.peers
  }

  /** The hard state is untouched, or it is changed and saved exactly once. */
  predicate SavesOnce(s: Node, s': Node) {
    && SameIdentity(s, s')
    && ((s'.saves == s.saves && s'.Hard() == s.Hard()) || s'.saves == s.saves + [s'.Hard()])
  }

  lemma {:induction false} BroadcastQuiet(s: Node, peers: seq<NodeId>)
    ensures var s' := BroadcastTo(s, peers);
            s' == s.(requestId := s'.requestId, outbox := s'.outbox) && s.outbox <= s'.outbox
  {
    if peers != [] {
      BroadcastQuiet(s, peers[..|peers| - 1]);
    }
  }

  lemma {:induction false} AdvanceQuiet(s: Node)
    ensures var s' := AdvanceCommit(s);
            s' == s.(commit := s'.commit, applied := s'.applied, published := s'.published)
  {
  }

  lemma {:induction false} CrownSaves(s: Node)
    ensures SavesOnce(s, BecomeLeader(s)) && BecomeLeader(s).Hard() == Crowned(s).Hard()
    ensures BecomeLeader(s).saves == s.saves + [Crowned(s).Hard()]
  {
    AdvanceQuiet(Crowned(s));
    BroadcastQuiet(AdvanceCommit(Crowned(s)), AdvanceCommit(Crowned(s)).peers);
  }

  lemma {:induction false} AppendRequestSaves(s: Node, from: NodeId, req: Rpc)
    requires req.AppendRequest?
    ensures SavesOnce(s, HandleAppendRequest(s, from, req))
  {
    hide Compare, ConflictStart, EntriesFit;
    var s1 := Following(s, req.leader);
    assert SameIdentity(s, s1) && s1.saves == s.saves && s1.Hard() == s.Hard();
    if Addressed(s, from, req) && PrevMatches(s1.log, req) {
      CompareBounds(s1.log, req.prevIndex, req.entries, 0);
    }
  }

  lemma {:induction false} AppendResponseSaves(s: Node, from: NodeId, resp: Rpc)
    requires resp.AppendResponse?
    ensures var s' := HandleAppendResponse(s, from, resp);
            SameIdentity(s, s') && s'.saves == s.saves && s'.Hard() == s.Hard()
  {
    hide AdvanceCommit, BroadcastTo, LastOfTerm;
    if s.role == Leader && resp.term == s.term && resp.success && resp.matchIndex <= |s.log| {
      var s1 := s.(matched := s.matched[from := Max(Lookup(s.matched, from), resp.matchIndex)],
                   next := s.next[from := Max(Lookup(s.next, from), resp.matchIndex + 1)]);
      AdvanceQuiet(s1);
      BroadcastQuiet(AdvanceCommit(s1), AdvanceCommit(s1).peers);
    }
  }

  /** The state after the first save of a call: the adopted term or the new candidacy. */
  function Midway(s: Node, call: Call): Node {
    match call
    case OnTick => if s.role == Leader then s else Candidacy(s)
    case OnMessage(m) => if Accepts(s, m) then AdoptTerm(s, m.rpc.term) else s
    case OnPropose(_) => s
  }

  lemma VoteRequestSaves(s: Node, from: NodeId, req: Rpc)
    requires req.VoteRequest?
    ensures SavesOnce(s, HandleVoteRequest(s, from, req))
  {
  }

  lemma {:induction false} HandleSaves(s: Node, from: NodeId, rpc: Rpc)
    ensures SavesOnce(s, Handle(s, from, rpc))
  {
    hide BecomeLeader, HandleVoteRequest, HandleAppendRequest, HandleAppendResponse, Crowned;
    match rpc
    case VoteRequest(_, _, _, _) => VoteRequestSaves(s, from, rpc);
    case VoteResponse(_, _) => CrownSaves(s.(votes := s.votes + {from}));
    case AppendRequest(_, _, _, _, _, _, _) => AppendRequestSaves(s, from, rpc);
    case AppendResponse(_, _, _, _, _, _) => AppendResponseSaves(s, from, rpc);
  }

  /** A call saves at most twice, each time the state it has reached, and ends saved. */
  lemma {:induction false} CallSaves(s: Node, call: Call)
    ensures SavesOnce(s, Midway(s, call)) && SavesOnce(Midway(s, call), Perform(s, call))
  {
    match call
    case OnTick =>
      BroadcastQuiet(s, s.peers);
      CrownSaves(Candidacy(s));
    case OnMessage(m) =>
      HandleSaves(AdoptTerm(s, m.rpc.term), m.from, m.rpc);
    case OnPropose(command) =>
      AdvanceQuiet(Appended(s, command));
      BroadcastQuiet(AdvanceCommit(Appended(s, command)), s.peers);
  }

  // ---- Persist before send ------------------------------------------------------------------

  /** The stored state bears out what the message claims. A success reply claims that the entries
      of the request being answered are stored at their place. */
  predicate Justified(m: Message, hard: HardState, call: Call) {
    match m.rpc
    case VoteRequest(t, candidate, lastIndex, lastTerm) =>
      && hard.term == t && hard.vote == Some(m.from) && candidate == m.from
      && lastIndex == |hard.log| && lastTerm == LastTerm(hard.log)
    case VoteResponse(t, granted) =>
      hard.term == t && (granted ==> hard.vote == Some(m.to))
    case AppendRequest(t, leader, prev, prevTerm, entries, _, _) =>
      && hard.term == t && leader == m.from
      && prev <= |hard.log| && prevTerm == TermAt(hard.log, prev) && entries == hard.log[prev..]
    case AppendResponse(t, success, matchIndex, _, _, requestId) =>
      && hard.term == t && call.OnMessage? && call.m.rpc.AppendRequest? && requestId == call.m.rpc.requestId
      && var q := call.m.rpc;
      && (success ==> matchIndex == q.prevIndex + |q.entries| <= |hard.log|
                      && q.entries == hard.log[q.prevIndex..matchIndex])
  }

  predicate AllJustified(s: Node, call: Call) {
    forall m | m in s.outbox :: Justified(m, s.Hard(), call)
  }

  lemma {:induction false} BroadcastJustified(s: Node, peers: seq<NodeId>, call: Call)
    requires AllJustified(s, call)
    ensures AllJustified(BroadcastTo(s, peers), call)
  {
    if peers != [] {
      BroadcastJustified(s, peers[..|peers| - 1], call);
      BroadcastQuiet(s, peers[..|peers| - 1]);
    }
  }

  lemma {:induction false} LeaderJustified(s: Node, call: Call)
    requires s.outbox == []
    ensures AllJustified(BecomeLeader(s), call)
  {
    AdvanceQuiet(Crowned(s));
    BroadcastJustified(AdvanceCommit(Crowned(s)), s.peers, call);
  }

  lemma {:induction false} RequestsJustified(s: Node, peers: seq<NodeId>, call: Call)
    requires s.vote == Some(s.id)
    ensures forall m | m in VoteRequests(s, peers) :: Justified(m, s.Hard(), call)
  {
    if peers != [] {
      RequestsJustified(s, peers[..|peers| - 1], call);
    }
  }

  /** After installing, the log holds the offered entries at their place. */
  lemma {:induction false} InstallHolds(s: Node, req: Rpc)
    requires req.AppendRequest? && req.prevIndex <= |s.log|
    requires !Compare(s.log, req.prevIndex, req.entries, 0).Corrupt?
    ensures var n := Compare(s.log, req.prevIndex, req.entries, 0).count;
            && n <= |req.entries| && req.prevIndex + n <= |s.log|
            && var log := Install(s, req, n).log;
            && req.prevIndex + |req.entries| <= |log|
            && log[req.prevIndex..req.prevIndex + |req.entries|] == req.entries
  {
    hide Compare;
    var n := Compare(s.log, req.prevIndex, req.entries, 0).count;
    CompareEqual(s.log, req.prevIndex, req.entries, 0);
    var log := Install(s, req, n).log;
    if n < |req.entries| {
      assert log[req.prevIndex..] == s.log[req.prevIndex..req.prevIndex + n] + req.entries[n..];
    }
  }

  lemma {:induction false} AcceptJustified(s: Node, m: Message)
    requires s.outbox == [] && m.rpc.AppendRequest? && m.rpc.prevIndex <= |s.log|
    requires !Compare(s.log, m.rpc.prevIndex, m.rpc.entries, 0).Corrupt?
    ensures var o := Compare(s.log, m.rpc.prevIndex, m.rpc.entries, 0);
            && o.count <= |m.rpc.entries| && m.rpc.prevIndex + o.count <= |s.log|
            && AllJustified(Accept(s, m.from, m.rpc, o), OnMessage(m))
  {
    hide Compare, NewlyPublished;
    InstallHolds(s, m.rpc);
  }

  lemma {:induction false} AppendRequestJustified(s: Node, m: Message)
    requires s.outbox == [] && m.rpc.AppendRequest?
    ensures AllJustified(HandleAppendRequest(s, m.from, m.rpc), OnMessage(m))
  {
    hide Compare, ConflictStart, Accept, EntriesFit;
    var s1 := Following(s, m.rpc.leader);
    if Addressed(s, m.from, m.rpc) && PrevMatches(s1.log, m.rpc) {
      CompareBounds(s1.log, m.rpc.prevIndex, m.rpc.entries, 0);
      if !Compare(s1.log, m.rpc.prevIndex, m.rpc.entries, 0).Corrupt? {
        AcceptJustified(s1, m);
      }
    }
  }

  lemma {:induction false} AppendResponseJustified(s: Node, m: Message)
    requires s.outbox == [] && m.rpc.AppendResponse?
    ensures AllJustified(HandleAppendResponse(s, m.from, m.rpc), OnMessage(m))
  {
    hide AdvanceCommit, LastOfTerm;
    var resp := m.rpc;
    if s.role == Leader && resp.term == s.term && resp.success && resp.matchIndex <= |s.log| {
      var s1 := s.(matched := s.matched[m.from := Max(Lookup(s.matched, m.from), resp.matchIndex)],
                   next := s.next[m.from := Max(Lookup(s.next, m.from), resp.matchIndex + 1)]);
      AdvanceQuiet(s1);
      BroadcastJustified(AdvanceCommit(s1), s.peers, OnMessage(m));
    }
  }

  /** Persist before send: every message a call queues is borne out by what storage holds when the
      call ends, whatever message was received. */
  lemma {:induction false} PersistBeforeSend(s: Node, call: Call)
    requires s.outbox == [] && s.saves != [] && s.saves[|s.saves| - 1] == s.Hard()
    ensures var s' := Perform(s, call);
            && s'.saves != [] && s'.saves[|s'.saves| - 1] == s'.Hard()
            && forall m | m in s'.outbox :: Justified(m, s'.saves[|s'.saves| - 1], call)
  {
    hide BecomeLeader, HandleAppendRequest, HandleAppendResponse, AdvanceCommit, BroadcastTo, Justified;
    CallSaves(s, call);
    match call
    case OnTick =>
      if s.role == Leader {
        BroadcastJustified(s, s.peers, call);
      } else {
        LeaderJustified(Candidacy(s), call);
        RequestsJustified(Candidacy(s), s.peers, call);
      }
    case OnMessage(m) =>
      ReceiveJustified(s, m);
    case OnPropose(command) =>
      AdvanceQuiet(Appended(s, command));
      BroadcastJustified(AdvanceCommit(Appended(s, command)), s.peers, call);
  }

  lemma {:induction false} ReceiveJustified(s: Node, m: Message)
    requires s.outbox == []
    ensures AllJustified(Receive(s, m), OnMessage(m))
  {
    hide BecomeLeader, HandleAppendRequest, HandleAppendResponse, AsCurrent;
    var s1 := AdoptTerm(s, m.rpc.term);
    match m.rpc
    case VoteRequest(_, _, _, _) =>
    case VoteResponse(_, _) => LeaderJustified(s1.(votes := s1.votes + {m.from}), OnMessage(m));
    case AppendRequest(_, _, _, _, _, _, _) => AppendRequestJustified(s1, m);
    case AppendResponse(_, _, _, _, _, _) => AppendResponseJustified(s1, m);
  }

  // ---- A save that failed ---------------------------------------------------------------------

  predicate Grants(s: Node, from: NodeId, req: Rpc)
    requires req.VoteRequest?
  {
    && req.candidate == from && req.term >= s.term && (s.vote == None || s.vote == Some(from))
    && AsCurrent(req.lastTerm, req.lastIndex, s.log)
  }

  /** Storage holds the vote. */
  predicate VoteStored(s: Node, candidate: NodeId) {
    s.saves != [] && var hard := s.saves[|s.saves| - 1]; hard.term == s.term && hard.vote == Some(candidate)
  }

  /** Whatever storage holds, a vote that is granted is in storage afterwards exactly when the node
      had not yet taken it in memory or had stored it then. */
  lemma GrantStoredExactly(s: Node, from: NodeId, req: Rpc)
    requires req.VoteRequest? && Grants(s, from, req)
    ensures var s' := HandleVoteRequest(s, from, req);
            && s'.outbox == s.outbox + [Message(s.id, from, VoteResponse(s.term, true))]
            && (VoteStored(s', from) <==> s.vote != Some(from) || VoteStored(s, from))
  {
    hide AsCurrent;
  }

  /** Why a failed save must end the process. The vote is taken in memory before it is saved, so
      after a save that failed the repeated request is granted without another attempt, and a
      restart then lets the node vote for somebody else in the same term. */
  lemma FailedSaveVotesTwice(s: Node, a: NodeId, b: NodeId, ra: Rpc, rb: Rpc)
    requires s.saves != [] && s.saves[|s.saves| - 1] == s.Hard() && s.vote.None?
    requires ra.VoteRequest? && Grants(s, a, ra) && rb.VoteRequest? && Grants(s, b, rb) && ra.term == rb.term == s.term
    ensures var unsaved := s.(vote := Some(a));
            var s1 := HandleVoteRequest(unsaved, a, ra);
            var s2 := HandleVoteRequest(Recovered(s.id, s.peers, s1.saves[|s1.saves| - 1]), b, rb);
            && s1.outbox == s.outbox + [Message(s.id, a, VoteResponse(s.term, true))]
            && s2.outbox == [Message(s.id, b, VoteResponse(s.term, true))]
  {
    hide AsCurrent;
    var s1 := HandleVoteRequest(s.(vote := Some(a)), a, ra);
    assert s1.saves == s.saves;
    assert Grants(Recovered(s.id, s.peers, s.Hard()), b, rb);
  }

  /** The request passes every test up to the acknowledgement. */
  predicate Acknowledges(s: Node, from: NodeId, req: Rpc)
    requires req.AppendRequest?
  {
    && Addressed(s, from, req) && PrevMatches(s.log, req)
    && var o := Compare(s.log, req.prevIndex, req.entries, 0);
    && !o.Corrupt? && (o.Conflict? ==> req.prevIndex + o.count >= s.commit)
  }

  /** Every offered entry is already in the log. */
  predicate NothingNew(s: Node, req: Rpc)
    requires req.AppendRequest?
  {
    Compare(s.log, req.prevIndex, req.entries, 0).count == |req.entries|
  }

  /** Storage holds the entries of the request at their place. */
  predicate EntriesStored(s: Node, req: Rpc)
    requires req.AppendRequest?
  {
    && s.saves != []
    && var log, end := s.saves[|s.saves| - 1].log, req.prevIndex + |req.entries|;
    && end <= |log| && log[req.prevIndex..end] == req.entries
  }

  /** The handler of an acknowledged request, in one piece. */
  lemma {:induction false} AcknowledgedState(s: Node, from: NodeId, req: Rpc)
    requires req.AppendRequest? && Acknowledges(s, from, req)
    ensures var f, n := Following(s, req.leader), Compare(s.log, req.prevIndex, req.entries, 0).count;
            && n <= |req.entries| && req.prevIndex + n <= |s.log| && f.log == s.log && f.term == s.term
            && f.id == s.id && f.saves == s.saves && f.outbox == s.outbox && f.commit == s.commit && f.role == Follower
            && f.leader == Some(req.leader)
            && HandleAppendRequest(s, from, req) == Acknowledge(Install(f, req, n), from, req)
  {
    hide Compare, EntriesFit, Install, Acknowledge, ConflictStart;
    CompareBounds(s.log, req.prevIndex, req.entries, 0);
  }

  lemma AcknowledgeSends(s: Node, from: NodeId, req: Rpc)
    requires req.AppendRequest?
    ensures var s', end := Acknowledge(s, from, req), req.prevIndex + |req.entries|;
            && s'.saves == s.saves && s'.log == s.log
            && s'.outbox == s.outbox +
                            [Message(s.id, from, AppendResponse(s.term, true, end, end + 1, None, req.requestId))]
  {
    hide NewlyPublished;
  }

  /** Whatever storage holds, acknowledged entries are in storage afterwards exactly when the request
      brought something new or they were stored before. */
  lemma {:induction false} AckStoredExactly(s: Node, from: NodeId, req: Rpc)
    requires req.AppendRequest? && Acknowledges(s, from, req)
    ensures var s', end := HandleAppendRequest(s, from, req), req.prevIndex + |req.entries|;
            && s'.outbox == s.outbox +
                            [Message(s.id, from, AppendResponse(s.term, true, end, end + 1, None, req.requestId))]
            && (EntriesStored(s', req) <==> !NothingNew(s, req) || EntriesStored(s, req))
  {
    hide Compare, Acknowledge, HandleAppendRequest;
    AcknowledgedState(s, from, req);
    var f, n := Following(s, req.leader), Compare(s.log, req.prevIndex, req.entries, 0).count;
    hide Following;
    AcknowledgeSends(Install(f, req, n), from, req);
    InstallHolds(f, req);
  }

  /** The log in memory after a failed save of the request's entries. */
  lemma {:induction false} UnsavedAcknowledges(s: Node, from: NodeId, req: Rpc)
    requires req.AppendRequest? && Acknowledges(s, from, req)
    ensures var n := Compare(s.log, req.prevIndex, req.entries, 0).count;
            && n <= |req.entries| && req.prevIndex + n <= |s.log|
            && var unsaved := Install(s, req, n).(saves := s.saves);
            Acknowledges(unsaved, from, req) && NothingNew(unsaved, req)
  {
    hide Compare, EntriesFit;
    InstallHolds(s, req);
    var n := Compare(s.log, req.prevIndex, req.entries, 0).count;
    ComparesWhole(Install(s, req, n).log, req.prevIndex, req.entries, 0);
  }

  /** The other half of why a failed save must end the process. The entries are put into memory before
      they are saved, so after a save that failed the repeated request finds them there: it is
      acknowledged without another attempt although storage does not hold them. */
  lemma {:induction false} FailedSaveAcknowledges(s: Node, from: NodeId, req: Rpc)
    requires req.AppendRequest? && Acknowledges(s, from, req) && !NothingNew(s, req)
    requires s.saves != [] && s.saves[|s.saves| - 1] == s.Hard()
    requires s.role == Follower && s.leader == Some(req.leader)
    ensures var n := Compare(s.log, req.prevIndex, req.entries, 0).count;
            && n <= |req.entries| && req.prevIndex + n <= |s.log|
            && var unsaved := Install(s, req, n).(saves := s.saves);
            var s', end := HandleAppendRequest(unsaved, from, req), req.prevIndex + |req.entries|;
            && s'.outbox == s.outbox +
                            [Message(s.id, from, AppendResponse(s.term, true, end, end + 1, None, req.requestId))]
            && s'.saves == s.saves && !EntriesStored(s', req)
  {
    hide Compare, HandleAppendRequest, Acknowledge, Acknowledges;
    UnsavedAcknowledges(s, from, req);
    var n := Compare(s.log, req.prevIndex, req.entries, 0).count;
    var unsaved := Install(s, req, n).(saves := s.saves);
    AcknowledgedState(unsaved, from, req);
    AcknowledgeSends(unsaved, from, req);
    if EntriesStored(s, req) {
      ComparesWhole(s.log, req.prevIndex, req.entries, 0);
    }
  }

  /** A log that holds the entries at their place compares equal to its end. */
  lemma {:induction false} ComparesWhole(log: seq<LogEntry>, prev: nat, entries: seq<LogEntry>, offset: nat)
    requires offset <= |entries| && prev + |entries| <= |log| && log[prev..prev + |entries|] == entries
    ensures Compare(log, prev, entries, offset) == Reached(|entries|)
    decreases |entries| - offset
  {
    if offset < |entries| {
      assert log[prev + offset] == log[prev..prev + |entries|][offset];
      ComparesWhole(log, prev, entries, offset + 1);
    }
  }
}
