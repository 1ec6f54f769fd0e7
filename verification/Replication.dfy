/** Sending, committing and accepting log entries preserve the invariant. */
module Replication {
  import opened RaftTypes
  import opened NodeSpec
  import opened History
  import opened Growth
  import opened Completeness
  import opened Elections
  import opened Leadership

  // ---- Committing on a leader -----------------------------------------------------------------

  /** A raised commit index holds an entry of the current term on a quorum. */
  lemma {:induction false} CommitTargetHolds(s: Node, candidate: nat)
    requires candidate <= |s.log|
    ensures var k := CommitTarget(s, candidate);
            && k >= s.commit
            && (k > s.commit ==> k <= candidate && TermAt(s.log, k) == s.term && Replicated(s, k))
  {
    if candidate > s.commit && !(TermAt(s.log, candidate) == s.term && Replicated(s, candidate)) {
      CommitTargetHolds(s, candidate - 1);
    }
  }

  lemma {:induction false} CountIsCardinality(matched: map<NodeId, nat>, peers: seq<NodeId>, index: nat)
    requires Distinct(peers)
    ensures CountAtLeast(matched, peers, index) == |set p | p in peers && Lookup(matched, p) >= index|
  {
    if peers != [] {
      var front, last := peers[..|peers| - 1], peers[|peers| - 1];
      var a := set p | p in front && Lookup(matched, p) >= index;
      CountIsCardinality(matched, front, index);
      if Lookup(matched, last) >= index {
        assert (set p | p in peers && Lookup(matched, p) >= index) == a + {last};
        assert last !in a;
      } else {
        assert (set p | p in peers && Lookup(matched, p) >= index) == a;
      }
    }
  }

  lemma ReplicatedChosen(s: Node, h: History, members: set<NodeId>, k: nat)
    requires LocalOk(s, members) && LeaderOk(s, h) && s.role == Leader
    requires 0 < k <= |s.log| && TermAt(s.log, k) == s.term && Replicated(s, k)
    ensures Chosen(h, s.term, k, members)
  {
    var holders := set p | p in s.peers && Lookup(s.matched, p) >= k;
    CountIsCardinality(s.matched, s.peers, k);
    assert s.id !in holders;
    assert |holders + {s.id}| == |holders| + 1;
    assert holders + {s.id} <= Holders(h, s.term, k, members);
    SubsetSmaller(holders + {s.id}, Holders(h, s.term, k, members));
  }

  lemma CommitToOk(s: Node, h: History, members: set<NodeId>, k: nat)
    requires NodeInv(s, h, members) && s.commit <= k <= |s.log|
    requires Settled(h, s.log, k, s.term, members)
    ensures NodeInv(CommitTo(s, k), h, members)
  {
    hide Traced, Ascending, Retains, Settled, PastOk, VoteOk, AsCurrent;
    PublishedMore(s.log, s.applied, k);
    PastSame(s, CommitTo(s, k), h);
    assert CommitTo(s, k).Members() == s.Members();
  }

  lemma PastSame(s: Node, s': Node, h: History)
    requires PastOk(s, h) && VoteOk(s, h)
    requires s'.id == s.id && s'.term == s.term && s'.role == s.role && s'.vote == s.vote && s'.leader == s.leader
    ensures PastOk(s', h) && VoteOk(s', h)
  {
  }

  /** A leader advances its commit index. */
  lemma {:induction false} AdvanceOk(s: Node, h: History, members: set<NodeId>)
    requires NodeInv(s, h, members) && s.role == Leader
    ensures NodeInv(AdvanceCommit(s), h, members)
  {
    hide LogOk, RetainsOk, PastOk, VoteOk, CandidateOk;
    var k := CommitTarget(s, |s.log|);
    CommitTargetHolds(s, |s.log|);
    if k > s.commit {
      ReplicatedChosen(s, h, members, k);
      assert Agree(s.log, h.reigns[s.term].log, k);
      CommitToOk(s, h, members, k);
    }
  }

  // ---- Sending on a leader ----------------------------------------------------------------------

  ghost predicate OutboxOk(s: Node, h: History, members: set<NodeId>) {
    forall m | m in s.outbox :: MessageInv(m, h, members)
  }

  /** The node invariant does not depend on request ids or queued messages. */
  lemma SentOk(s: Node, s': Node, h: History, members: set<NodeId>)
    requires NodeInv(s, h, members)
    requires s' == s.(requestId := s'.requestId, outbox := s'.outbox)
    requires forall p | p in s.requestId :: p in s'.requestId
    ensures NodeInv(s', h, members)
  {
    hide Traced, Ascending, Retains, Settled, PastOk, VoteOk, AsCurrent;
    PastSame(s, s', h);
    assert s'.Members() == s.Members();
  }

  lemma SendOk(s: Node, to: NodeId, rpc: Rpc, h: History, members: set<NodeId>)
    requires NodeInv(s, h, members) && OutboxOk(s, h, members)
    requires MessageInv(Message(s.id, to, rpc), h, members)
    ensures NodeInv(s.Send(to, rpc), h, members) && OutboxOk(s.Send(to, rpc), h, members)
  {
    hide NodeInv, MessageInv;
    SentOk(s, s.Send(to, rpc), h, members);
  }

  lemma RequestForOk(s: Node, h: History, members: set<NodeId>, peer: NodeId)
    requires s.role == Leader && LeaderOk(s, h) && Tracks(s, peer) && s.commit <= |s.log|
    requires Settled(h, s.log, s.commit, s.term, members)
    ensures RequestOk(Message(s.id, peer, RequestFor(s, peer)), h, members)
  {
    var prev := s.next[peer] - 1;
    assert s.log[prev..] == s.log[prev..prev + |s.log[prev..]|];
  }

  lemma SendAppendOk(s: Node, h: History, members: set<NodeId>, peer: NodeId)
    requires NodeInv(s, h, members) && OutboxOk(s, h, members)
    requires s.role == Leader && peer in s.peers
    ensures var s' := SendAppend(s, peer);
            && NodeInv(s', h, members) && OutboxOk(s', h, members)
            && s' == s.(requestId := s'.requestId, outbox := s'.outbox)
  {
    hide LogOk, RetainsOk, PastOk, VoteOk, CandidateOk, Settled, LeaderOk, RequestOk;
    assert Tracks(s, peer);
    RequestForOk(s, h, members, peer);
    SentOk(s, SendAppend(s, peer), h, members);
  }

  lemma {:induction false} BroadcastToOk(s: Node, h: History, members: set<NodeId>, peers: seq<NodeId>)
    requires NodeInv(s, h, members) && OutboxOk(s, h, members)
    requires s.role == Leader && forall p | p in peers :: p in s.peers
    ensures var s' := BroadcastTo(s, peers);
            && NodeInv(s', h, members) && OutboxOk(s', h, members)
            && s' == s.(requestId := s'.requestId, outbox := s'.outbox)
  {
    hide NodeInv, OutboxOk, SendAppend;
    if peers != [] {
      BroadcastToOk(s, h, members, peers[..|peers| - 1]);
      SendAppendOk(BroadcastTo(s, peers[..|peers| - 1]), h, members, peers[|peers| - 1]);
    }
  }

  // ---- Accepting on a follower ------------------------------------------------------------------

  /** A follower's log after accepting entries, described without the comparison. */
  ghost function Merged(log: seq<LogEntry>, req: Rpc): seq<LogEntry>
    requires req.AppendRequest? && req.prevIndex <= |log|
  {
    var n := Compare(log, req.prevIndex, req.entries, 0).count;
    CompareBounds(log, req.prevIndex, req.entries, 0);
    if n < |req.entries| then log[..req.prevIndex + n] + req.entries[n..] else log
  }

  /** The request is a slice of the reference log `full`. */
  ghost predicate SliceOf(req: Rpc, full: seq<LogEntry>)
    requires req.AppendRequest?
  {
    && req.prevIndex + |req.entries| <= |full|
    && req.entries == full[req.prevIndex..req.prevIndex + |req.entries|]
    && req.prevTerm == TermAt(full, req.prevIndex)
  }

  lemma AgreeSlice(log: seq<LogEntry>, full: seq<LogEntry>, prev: nat, entries: seq<LogEntry>, n: nat)
    requires Agree(log, full, prev) && n <= |entries|
    requires prev + n <= |log| && log[prev..prev + n] == entries[..n]
    requires prev + |entries| <= |full| && entries == full[prev..prev + |entries|]
    ensures Agree(log, full, prev + n)
  {
    forall j | 0 <= j < prev + n
      ensures log[j] == full[j]
    {
      if j < prev {
        AgreeAt(log, full, prev, j);
      } else {
        assert log[j] == log[prev..prev + n][j - prev];
        assert full[j] == entries[..n][j - prev];
      }
    }
  }

  /** The comparison stops exactly where the follower's log leaves the reference log, if at all. */
  lemma {:induction false} OverlapAgrees(log: seq<LogEntry>, req: Rpc, full: seq<LogEntry>)
    requires req.AppendRequest? && SliceOf(req, full)
    requires req.prevIndex <= |log| && Agree(log, full, req.prevIndex)
    ensures var n := Compare(log, req.prevIndex, req.entries, 0).count;
            && n <= |req.entries| && req.prevIndex + n <= |log|
            && Agree(log, full, req.prevIndex + n)
  {
    var n := Compare(log, req.prevIndex, req.entries, 0).count;
    CompareEqual(log, req.prevIndex, req.entries, 0);
    AgreeSlice(log, full, req.prevIndex, req.entries, n);
  }

  lemma {:induction false} MergedReaches(log: seq<LogEntry>, req: Rpc, full: seq<LogEntry>)
    requires req.AppendRequest? && SliceOf(req, full)
    requires req.prevIndex <= |log| && Agree(log, full, req.prevIndex)
    ensures var e := req.prevIndex + |req.entries|;
            Agree(Merged(log, req), full, e) && (Merged(log, req) == log || Merged(log, req) == full[..e])
  {
    OverlapAgrees(log, req, full);
    var n := Compare(log, req.prevIndex, req.entries, 0).count;
    if n < |req.entries| {
      assert Merged(log, req) == full[..req.prevIndex + |req.entries|];
    }
  }

  /** Nothing the follower shares with the reference log is lost. */
  lemma {:induction false} MergedKeeps(log: seq<LogEntry>, req: Rpc, full: seq<LogEntry>, m: nat)
    requires req.AppendRequest? && SliceOf(req, full)
    requires req.prevIndex <= |log| && Agree(log, full, req.prevIndex) && Agree(log, full, m)
    ensures Agree(log, Merged(log, req), m)
  {
    OverlapAgrees(log, req, full);
    CompareBounds(log, req.prevIndex, req.entries, 0);
    CompareStops(log, req.prevIndex, req.entries, 0);
    var o := Compare(log, req.prevIndex, req.entries, 0);
    var p := req.prevIndex + o.count;
    if o.count < |req.entries| {
      if m > p {
        assert false;
      }
      assert log[..m] == Merged(log, req)[..m];
    }
  }
}
