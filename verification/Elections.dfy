/** The election steps of a node preserve the invariant. */
module Elections {
  import opened RaftTypes
  import opened NodeSpec
  import opened History
  import opened Growth
  import opened Completeness

  lemma RetainsLater(s: Node, h: History, members: set<NodeId>, term: nat)
    requires RetainsOk(s, h) && AcksOk(h, members) && s.term <= term
    ensures forall a | a in h.acks && a.node == s.id ::
              a.term in h.reigns && a.term <= term && Retains(h, a, s.log, term + 1)
  {
    GrowsSelf(h, s.id);
    forall a | a in h.acks && a.node == s.id
      ensures a.term in h.reigns && a.term <= term && Retains(h, a, s.log, term + 1)
    {
      RetainsGrows(h, h, a, s.log, s.term + 1, term + 1);
    }
  }

  /** Stepping down, to a later term or within the current one. */
  lemma FollowerOk(s: Node, h: History, members: set<NodeId>, term: nat, leader: Option<NodeId>)
    requires AcksOk(h, members) && NodeInv(s, h, members)
    requires leader.Some? ==> term == s.term && term in h.reigns && h.reigns[term].leader == leader.value
    ensures NodeInv(BecomeFollower(s, term, leader), h, members)
  {
    hide Traced, Ascending, Retains, Settled, Published, AcksOk;
    var s' := BecomeFollower(s, term, leader);
    GrowsSelf(h, s.id);
    RetainsLater(s, h, members, s'.term);
    SettledGrows(h, h, s.log, s.commit, s.term, s'.term, members);
  }

  /** A restart from what a node last saved. */
  lemma RecoveryOk(s: Node, h: History, members: set<NodeId>)
    requires NodeInv(s, h, members)
    ensures Recoverable(s.id, s.peers, s.Hard())
    ensures NodeInv(Recovered(s.id, s.peers, s.Hard()), h, members)
  {
    var s' := Recovered(s.id, s.peers, s.Hard());
    assert s'.Members() == s.Members();
  }

  /** A vote added to the history, with the voter's log as its ballot while the term is undecided. */
  ghost function WithVote(h: History, k: Slot, candidate: NodeId, log: seq<LogEntry>): History {
    h.(votes := h.votes[k := candidate],
       ballots := if k.term in h.reigns then h.ballots else h.ballots[k := log])
  }

  /** The parts of the history invariant that survive when no leadership changes. */
  lemma ReignKept(h: History, h': History, t: nat, members: set<NodeId>)
    requires t in h.reigns && ReignOk(h, t, members)
    requires Grows(h, h') && h'.reigns[t] == h.reigns[t]
    ensures ReignOk(h', t, members)
  {
    TracedGrows(h.reigns[t].log, h, h');
    forall v | v in h'.reigns[t].voters
      ensures Elected(h', t, v)
    {
      assert Elected(h, t, v);
    }
  }

  lemma ReignsKept(h: History, h': History, members: set<NodeId>)
    requires HistoryInv(h, members) && Grows(h, h') && h'.reigns == h.reigns
    ensures forall t | t in h'.reigns :: ReignOk(h', t, members)
  {
    forall t | t in h'.reigns
      ensures ReignOk(h', t, members)
    {
      ReignKept(h, h', t, members);
    }
  }

  lemma BallotsKept(h: History, h': History, added: set<Slot>)
    requires BallotsOk(h) && Grows(h, h')
    requires h'.ballots.Keys == h.ballots.Keys + added
    requires forall b | b in added :: Traced(h'.ballots[b], h) && Ascending(h'.ballots[b])
    ensures BallotsOk(h')
  {
    forall b | b in h'.ballots
      ensures Traced(h'.ballots[b], h') && Ascending(h'.ballots[b])
    {
      TracedGrows(h'.ballots[b], h, h');
    }
  }

  lemma BallotsRetainKept(h: History, h': History, members: set<NodeId>, added: set<Slot>)
    requires AcksOk(h, members) && AcksOk(h', members) && BallotsRetain(h, members)
    requires Grows(h, h') && h'.acks == h.acks
    requires h'.ballots.Keys == h.ballots.Keys + added
    requires forall b, a | b in added && a in h.acks && a.node == b.node && a.term < b.term ::
               Retains(h, a, h'.ballots[b], b.term)
    ensures BallotsRetain(h', members)
  {
    forall b, a | b in h'.ballots && a in h'.acks && a.node == b.node && a.term < b.term
      ensures Retains(h', a, h'.ballots[b], b.term)
    {
      assert Retains(h, a, h'.ballots[b], b.term);
      RetainsGrows(h, h', a, h'.ballots[b], b.term, b.term);
    }
  }

  lemma WithVoteExtends(h: History, k: Slot, candidate: NodeId, log: seq<LogEntry>)
    requires k !in h.votes && k !in h.ballots
    ensures Extends(h, WithVote(h, k, candidate, log), k.node)
  {
  }

  lemma VotesKept(h: History, k: Slot, candidate: NodeId, log: seq<LogEntry>)
    requires VotesOk(h) && k !in h.votes && k !in h.ballots
    requires Slot(k.term, candidate) in h.bids
    requires var bid := h.bids[Slot(k.term, candidate)]; AsCurrent(LastTerm(bid), |bid|, log)
    ensures VotesOk(WithVote(h, k, candidate, log))
  {
  }

  lemma VoteRecorded(h: History, members: set<NodeId>, k: Slot, candidate: NodeId, log: seq<LogEntry>)
    requires HistoryInv(h, members)
    requires k !in h.votes && k !in h.ballots
    requires Traced(log, h) && Ascending(log)
    requires Slot(k.term, candidate) in h.bids
    requires var bid := h.bids[Slot(k.term, candidate)]; AsCurrent(LastTerm(bid), |bid|, log)
    requires k.term !in h.reigns ==>
               forall a | a in h.acks && a.node == k.node && a.term < k.term :: Retains(h, a, log, k.term)
    ensures HistoryInv(WithVote(h, k, candidate, log), members)
    ensures Extends(h, WithVote(h, k, candidate, log), k.node)
  {
    hide Traced, Ascending, Retains, ReignOk, AsCurrent, Grows, OnlyBy, VotesOk, BallotsOk, BallotsRetain;
    var h' := WithVote(h, k, candidate, log);
    WithVoteExtends(h, k, candidate, log);
    VotesKept(h, k, candidate, log);
    ReignsKept(h, h', members);
    var added := if k.term in h.reigns then {} else {k};
    BallotsKept(h, h', added);
    BallotsRetainKept(h, h', members, added);
  }

  ghost function WithBid(h: History, k: Slot, log: seq<LogEntry>): History {
    h.(bids := h.bids[k := log])
  }

  lemma BidRecorded(h: History, members: set<NodeId>, k: Slot, log: seq<LogEntry>)
    requires HistoryInv(h, members) && k !in h.bids
    ensures HistoryInv(WithBid(h, k, log), members)
    ensures Extends(h, WithBid(h, k, log), k.node)
  {
    var h' := WithBid(h, k, log);
    assert Grows(h, h');
    ReignsKept(h, h', members);
    BallotsKept(h, h', {});
    BallotsRetainKept(h, h', members, {});
  }

  /** Granting a vote: the first grant in a term is recorded, a repeated one changes nothing. */
  lemma GrantOk(s: Node, h: History, members: set<NodeId>, candidate: NodeId) returns (h': History)
    requires HistoryInv(h, members) && NodeInv(s, h, members)
    requires s.vote == None && candidate in members
    requires Slot(s.term, candidate) in h.bids
    requires var bid := h.bids[Slot(s.term, candidate)]; AsCurrent(LastTerm(bid), |bid|, s.log)
    ensures HistoryInv(h', members) && Extends(h, h', s.id)
    ensures NodeInv(s.(vote := Some(candidate)).Persist(), h', members)
    ensures Slot(s.term, s.id) in h'.votes && h'.votes[Slot(s.term, s.id)] == candidate
  {
    hide HistoryInv, Extends, Traced, Ascending, Retains, AsCurrent, LocalOk, PastOk, CandidateOk, LeaderOk, Settled;
    var k := Slot(s.term, s.id);
    h' := WithVote(h, k, candidate, s.log);
    if k.term !in h.reigns {
      forall a | a in h.acks && a.node == k.node && a.term < k.term
        ensures Retains(h, a, s.log, k.term)
      {
        assert Retains(h, a, s.log, k.term + 1);
        UndecidedRetains(h, a, s.log, k.term);
      }
    }
    VoteRecorded(h, members, k, candidate, s.log);
    OwnNodeKept(s, h, h', members);
    GrantParts(s, h, members, candidate);
  }

  lemma GrantParts(s: Node, h: History, members: set<NodeId>, candidate: NodeId)
    requires NodeInv(s, h, members) && s.vote == None && candidate in members
    ensures var h' := WithVote(h, Slot(s.term, s.id), candidate, s.log);
            var s' := s.(vote := Some(candidate)).Persist();
            LocalOk(s', members) && PastOk(s', h') && VoteOk(s', h') && CandidateOk(s', h') && LeaderOk(s', h')
  {
    hide Traced, Ascending, Retains, Settled, AsCurrent, Published;
  }

  /** While term t has no leader, being carried up to t and up to t + 1 is the same. */
  lemma UndecidedRetains(h: History, a: Slot, log: seq<LogEntry>, t: nat)
    requires a in h.acks && a.term in h.reigns && t !in h.reigns
    requires Retains(h, a, log, t + 1)
    ensures Retains(h, a, log, t)
  {
    forall m | 0 <= m <= h.acks[a] && Carried(h, a.term, t, m)
      ensures Agree(h.reigns[a.term].log, log, m)
    {
      assert Carried(h, a.term, t + 1, m);
    }
  }

  /** The parts of a node's own invariant that survive any growth leaving its acknowledgements alone. */
  lemma OwnNodeKept(s: Node, h: History, h': History, members: set<NodeId>)
    requires LogOk(s, h) && RetainsOk(s, h) && HistoryInv(h, members) && Extends(h, h', s.id)
    requires Settled(h, s.log, s.commit, s.term, members)
    requires h'.acks == h.acks
    ensures LogOk(s, h') && RetainsOk(s, h')
    ensures Settled(h', s.log, s.commit, s.term, members)
  {
    TracedGrows(s.log, h, h');
    SettledGrows(h, h', s.log, s.commit, s.term, s.term, members);
    forall a | a in h'.acks && a.node == s.id
      ensures a.term in h'.reigns && a.term <= s.term && Retains(h', a, s.log, s.term + 1)
    {
      RetainsGrows(h, h', a, s.log, s.term + 1, s.term + 1);
    }
  }

  lemma NextTermUnused(s: Node, h: History)
    requires PastOk(s, h)
    ensures var k := Slot(s.term + 1, s.id); k !in h.bids && k !in h.votes && k !in h.ballots
  {
  }

  ghost function WithCandidacy(s: Node, h: History): History {
    var k := Slot(s.term + 1, s.id);
    WithVote(WithBid(h, k, s.log), k, s.id, s.log)
  }

  lemma CandidacyRecorded(s: Node, h: History, members: set<NodeId>)
    requires HistoryInv(h, members)
    requires LogOk(s, h) && PastOk(s, h) && RetainsOk(s, h)
    requires Settled(h, s.log, s.commit, s.term, members)
    ensures var h' := WithCandidacy(s, h);
            && HistoryInv(h', members) && Extends(h, h', s.id)
            && LogOk(s, h') && RetainsOk(s, h') && Settled(h', s.log, s.commit, s.term, members)
  {
    hide Traced, Ascending, Retains, HistoryInv, Extends, PastOk, Settled;
    var k := Slot(s.term + 1, s.id);
    NextTermUnused(s, h);
    var h1 := WithBid(h, k, s.log);
    BidRecorded(h, members, k, s.log);
    OwnNodeKept(s, h, h1, members);
    assert forall a | a in h1.acks && a.node == k.node && a.term < k.term :: Retains(h1, a, s.log, k.term);
    var h' := WithVote(h1, k, s.id, s.log);
    VoteRecorded(h1, members, k, s.id, s.log);
    OwnNodeKept(s, h1, h', members);
    ExtendsTrans(h, h1, h', s.id);
  }

  /** Standing for election in the next term. */
  lemma CandidacyOk(s: Node, h: History, members: set<NodeId>) returns (h': History)
    requires HistoryInv(h, members) && NodeInv(s, h, members)
    ensures HistoryInv(h', members) && Extends(h, h', s.id)
    ensures NodeInv(Candidacy(s), h', members)
  {
    hide ReignOk, BallotsOk, VotesOk, BallotsRetain, Traced, Ascending, Retains, Settled, LocalOk, PastOk, VoteOk,
      CandidateOk, LeaderOk;
    h' := WithCandidacy(s, h);
    CandidacyRecorded(s, h, members);
    RetainsLater(s, h', members, s.term + 1);
    GrowsSelf(h', s.id);
    SettledGrows(h', h', s.log, s.commit, s.term, s.term + 1, members);
    CandidacyParts(s, h, h', members);
  }

  lemma CandidacyParts(s: Node, h: History, h': History, members: set<NodeId>)
    requires NodeInv(s, h, members)
    requires h' == WithCandidacy(s, h)
    ensures var s' := Candidacy(s);
            LocalOk(s', members) && PastOk(s', h') && VoteOk(s', h') && CandidateOk(s', h') && LeaderOk(s', h')
  {
  }
}
