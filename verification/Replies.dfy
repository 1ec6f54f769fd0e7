/** What the calls of a node send: a request that is accepted and does not throw is answered by exactly
    one message, and a leader or candidate addresses every peer once. */
module Replies {
  import opened RaftTypes
  import opened NodeSpec

  /** The message answers the request. */
  predicate Answers(reply: Message, request: Message) {
    && reply.from == request.to && reply.to == request.from
    && (request.rpc.VoteRequest? ==> reply.rpc.VoteResponse?)
    && (request.rpc.AppendRequest? ==>
          reply.rpc.AppendResponse? && reply.rpc.requestId == request.rpc.requestId)
  }

  /** From one state to the other, one message was queued and it answers the request. */
  predicate Replied(s: Node, s': Node, request: Message) {
    |s'.outbox| == |s.outbox| + 1 && s'.outbox[..|s.outbox|] == s.outbox && Answers(s'.outbox[|s.outbox|], request)
  }

  lemma AcknowledgeReplies(s: Node, m: Message)
    requires m.rpc.AppendRequest? && m.to == s.id
    ensures Replied(s, Acknowledge(s, m.from, m.rpc), m)
  {
    hide NewlyPublished;
  }

  lemma RejectReplies(s: Node, m: Message, index: nat, term: Option<nat>)
    requires m.rpc.AppendRequest? && m.to == s.id
    ensures Replied(s, Reject(s, m.from, m.rpc, index, term), m)
  {
  }

  lemma {:induction false} ReconcileReplies(s: Node, m: Message)
    requires m.rpc.AppendRequest? && m.to == s.id
    ensures if PrevMatches(s.log, m.rpc) && Compare(s.log, m.rpc.prevIndex, m.rpc.entries, 0).Corrupt?
            then Reconcile(s, m.from, m.rpc) == s
            else Replied(s, Reconcile(s, m.from, m.rpc), m)
  {
    hide Compare, ConflictStart, Acknowledge, Reject, Answers;
    var q := m.rpc;
    if q.prevIndex > |s.log| {
      RejectReplies(s, m, |s.log| + 1, None);
    } else if !PrevMatches(s.log, q) {
      RejectReplies(s, m, ConflictStart(s.log, q.prevIndex), Some(s.log[q.prevIndex - 1].term));
    } else {
      CompareBounds(s.log, q.prevIndex, q.entries, 0);
      var o := Compare(s.log, q.prevIndex, q.entries, 0);
      AcknowledgeReplies(Install(s, q, o.count), m);
      if o.Conflict? {
        RejectReplies(s, m, q.prevIndex + o.count + 1, Some(s.log[q.prevIndex + o.count].term));
      }
    }
  }

  lemma {:induction false} AppendReplies(s: Node, m: Message)
    requires m.rpc.AppendRequest? && m.to == s.id
    ensures var s' := HandleAppendRequest(s, m.from, m.rpc);
            if HandlerThrows(s, m.from, m.rpc) then s'.outbox == s.outbox else Replied(s, s', m)
  {
    hide Compare, EntriesFit, Reconcile, Reject, Answers;
    RejectReplies(s, m, |s.log| + 1, None);
    ReconcileReplies(Following(s, m.rpc.leader), m);
  }

  lemma VoteReplies(s: Node, m: Message)
    requires m.rpc.VoteRequest? && m.to == s.id
    ensures Replied(s, HandleVoteRequest(s, m.from, m.rpc), m)
  {
    hide AsCurrent;
  }

  /** A request that is accepted and does not throw is answered once; any other changes no outbox. */
  lemma {:induction false} OneReply(s: Node, m: Message)
    requires m.rpc.VoteRequest? || m.rpc.AppendRequest?
    ensures if Accepts(s, m) && !Throws(s, m) then Replied(s, Receive(s, m), m)
            else Receive(s, m).outbox == s.outbox
  {
    hide HandleAppendRequest, HandleVoteRequest, HandlerThrows, Answers;
    if Accepts(s, m) {
      var s1 := AdoptTerm(s, m.rpc.term);
      assert s1.id == s.id && s1.outbox == s.outbox;
      if m.rpc.AppendRequest? {
        AppendReplies(s1, m);
      } else {
        VoteReplies(s1, m);
      }
    }
  }

  // ---- Requests -------------------------------------------------------------------------------

  /** From one state to the other each of the peers was sent, in order, one request with everything from
      its next index on, and nothing else changed but the request ids. */
  predicate SentTo(s: Node, s': Node, peers: seq<NodeId>)
    requires forall p | p in peers :: Tracks(s, p)
  {
    && s' == s.(requestId := s'.requestId, outbox := s'.outbox)
    && |s'.outbox| == |s.outbox| + |peers| && s.outbox <= s'.outbox
    && (forall i | 0 <= i < |peers| :: s'.outbox[|s.outbox| + i] == DueTo(s, peers[i]))
    && (forall p | p in s.requestId :: p in s'.requestId &&
          s'.requestId[p] == s.requestId[p] + if p in peers then 1 else 0)
  }

  /** The message a tracked peer is due: what the leader's log holds from the peer's next index on. */
  function DueTo(s: Node, p: NodeId): Message
    requires Tracks(s, p)
  {
    var next := s.next[p];
    Message(s.id, p, AppendRequest(s.term, s.id, next - 1, if next == 1 then 0 else s.log[next - 2].term,
                                   s.log[next - 1..], s.commit, s.requestId[p] + 1))
  }

  lemma SentOneMore(s: Node, s1: Node, front: seq<NodeId>, last: NodeId)
    requires (forall p | p in front :: Tracks(s, p)) && Tracks(s, last) && last !in front && SentTo(s, s1, front)
    ensures (forall p | p in front + [last] :: Tracks(s, p)) && SentTo(s, SendAppend(s1, last), front + [last])
  {
    var peers, s' := front + [last], SendAppend(s1, last);
    assert forall p | p in peers :: p in front || p == last;
    assert Tracks(s1, last) && Message(s.id, last, RequestFor(s1, last)) == DueTo(s, last);
    hide RequestFor, Tracks, DueTo;
    assert s'.outbox == s1.outbox + [DueTo(s, last)];
    forall i | 0 <= i < |peers|
      ensures s'.outbox[|s.outbox| + i] == DueTo(s, peers[i])
    {
      if i < |front| {
        assert s1.outbox[|s.outbox| + i] == DueTo(s, front[i]);
      }
    }
  }

  lemma SentFacts(s: Node, s': Node, peers: seq<NodeId>)
    requires (forall p | p in peers :: Tracks(s, p)) && SentTo(s, s', peers)
    ensures s' == s.(requestId := s'.requestId, outbox := s'.outbox)
    ensures |s'.outbox| == |s.outbox| + |peers| && s.outbox <= s'.outbox
  {
  }

  lemma SentAt(s: Node, s': Node, peers: seq<NodeId>, i: nat)
    requires (forall p | p in peers :: Tracks(s, p)) && SentTo(s, s', peers) && i < |peers|
    ensures |s'.outbox| == |s.outbox| + |peers| && Tracks(s, peers[i])
    ensures s'.outbox[|s.outbox| + i] == DueTo(s, peers[i])
  {
    assert peers[i] in peers;
  }

  lemma SendAppendReaches(s: Node, p: NodeId)
    requires Tracks(s, p)
    ensures SentTo(s, SendAppend(s, p), [p])
  {
    assert SentTo(s, s, []);
    SentOneMore(s, s, [], p);
    assert [] + [p] == [p];
  }

  /** A broadcast queues, in the order of the peers, the request each peer was due before it, and
      counts one more request id for each. */
  lemma {:induction false} BroadcastReaches(s: Node, peers: seq<NodeId>)
    requires Distinct(peers) && forall p | p in peers :: Tracks(s, p)
    ensures SentTo(s, BroadcastTo(s, peers), peers)
  {
    if peers != [] {
      var front, last := peers[..|peers| - 1], peers[|peers| - 1];
      assert peers == front + [last];
      assert forall p | p in front :: p in peers;
      assert last in peers && last !in front;
      BroadcastReaches(s, front);
      SentOneMore(s, BroadcastTo(s, front), front, last);
    }
  }

  /** A candidate's requests: one to each peer, in order. */
  lemma {:induction false} VoteRequestsReach(s: Node, peers: seq<NodeId>)
    ensures var out := VoteRequests(s, peers);
            && |out| == |peers|
            && forall i | 0 <= i < |peers| ::
                 out[i] == Message(s.id, peers[i], VoteRequest(s.term, s.id, |s.log|, LastTerm(s.log)))
  {
    if peers != [] {
      VoteRequestsReach(s, peers[..|peers| - 1]);
    }
  }
}
