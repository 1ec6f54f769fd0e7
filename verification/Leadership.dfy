/** Winning an election and appending as a leader preserve the invariant. */
module Leadership {
  import opened RaftTypes
  import opened NodeSpec
  import opened History
  import opened Growth
  import opened Completeness
  import opened Elections

  /** Raising one node's acknowledgement disturbs no ballot: its ballots are not from later terms. */
  lemma BallotsRetainRaised(h: History, h': History, members: set<NodeId>, a: Slot)
    requires AcksOk(h, members) && AcksOk(h', members) && BallotsRetain(h, members)
    requires Grows(h, h') && h'.ballots == h.ballots
    requires h'.acks.Keys == h.acks.Keys + {a}
    requires forall k | k in h.acks && k != a :: h'.acks[k] == h.acks[k]
    requires forall b | b in h.ballots && b.node == a.node :: b.term <= a.term
    ensures BallotsRetain(h', members)
  {
    forall b, k | b in h'.ballots && k in h'.acks && k.node == b.node && k.term < b.term
      ensures Retains(h', k, h'.ballots[b], b.term)
    {
      assert Retains(h, k, h.ballots[b], b.term);
      RetainsGrows(h, h', k, h.ballots[b], b.term, b.term);
    }
  }

  /** What a node retains survives when its log keeps its old entries and one acknowledgement of
      the current term is raised to a prefix the new log holds. */
  lemma RetainsRaised(s: Node, h: History, h': History, members: set<NodeId>, log: seq<LogEntry>)
    requires RetainsOk(s, h) && AcksOk(h, members) && Grows(h, h')
    requires var a := Slot(s.term, s.id);
             && a in h'.acks && h'.acks.Keys == h.acks.Keys + {a}
             && s.term in h'.reigns && Agree(h'.reigns[s.term].log, log, h'.acks[a])
    requires forall k | k in h.acks && k != Slot(s.term, s.id) :: h'.acks[k] == h.acks[k]
    requires Agree(s.log, log, |s.log|)
    ensures RetainsOk(s.(log := log), h')
  {
    forall k | k in h'.acks && k.node == s.id
      ensures k.term in h'.reigns && k.term <= s.term && Retains(h', k, log, s.term + 1)
    {
      if k == Slot(s.term, s.id) {
        forall m | 0 <= m <= h'.acks[k] && Carried(h', k.term, s.term + 1, m)
          ensures Agree(h'.reigns[k.term].log, log, m)
        {
          AgreeLess(h'.reigns[s.term].log, log, h'.acks[k], m);
        }
      } else {
        RetainsGrows(h, h', k, s.log, s.term + 1, s.term + 1);
        forall m | 0 <= m <= h'.acks[k] && Carried(h', k.term, s.term + 1, m)
          ensures Agree(h'.reigns[k.term].log, log, m)
        {
          AgreeLess(s.log, log, |s.log|, m);
        }
      }
    }
  }

  /** A candidate with a quorum of votes is the first winner of its term. */
  lemma TermUndecided(s: Node, h: History, members: set<NodeId>)
    requires HistoryInv(h, members) && NodeInv(s, h, members)
    requires s.role == Candidate && Majority(s.votes, members)
    ensures s.term !in h.reigns
  {
    if s.term in h.reigns {
      assert ReignOk(h, s.term, members);
      MajoritiesMeet(s.votes, h.reigns[s.term].voters, members);
      assert false;
    }
  }

  lemma ExtendsGrows(h: History, h': History, n: NodeId)
    requires Extends(h, h', n)
    ensures Grows(h, h')
  {
  }

  lemma OlderTerms(s: Node, h: History)
    requires LogOk(s, h) && s.term !in h.reigns
    ensures forall k | 0 <= k < |s.log| :: s.log[k].term < s.term
  {
  }

  ghost function WithReign(s: Node, h: History): History {
    h.(reigns := h.reigns[s.term := Reign(s.id, s.votes, s.log, Crowned(s).log)],
       acks := h.acks[Slot(s.term, s.id) := |s.log| + 1])
  }

  lemma WithReignExtends(s: Node, h: History)
    requires s.term !in h.reigns && Slot(s.term, s.id) !in h.acks
    ensures Extends(h, WithReign(s, h), s.id)
  {
  }

  /** A log traced before, extended by an entry of a term whose log is exactly the result. */
  lemma TracedAppended(log: seq<LogEntry>, e: LogEntry, h: History, h': History)
    requires Traced(log, h) && Grows(h, h')
    requires e.term in h'.reigns && h'.reigns[e.term].log == log + [e]
    ensures Traced(log + [e], h')
  {
    var log' := log + [e];
    TracedGrows(log, h, h');
    assert Agree(log', h'.reigns[e.term].log, |log'|);
    forall k | 0 <= k < |log|
      ensures log'[k].term in h'.reigns && Agree(log', h'.reigns[log'[k].term].log, k + 1)
    {
      assert Agree(log, h'.reigns[log[k].term].log, k + 1);
      assert log'[..k + 1] == log[..k + 1];
    }
  }

  lemma AscendingAppended(log: seq<LogEntry>, e: LogEntry)
    requires Ascending(log) && TermsAtMost(log, e.term) && 0 < e.term
    ensures Ascending(log + [e])
  {
  }

  lemma VotesCrowned(s: Node, h: History)
    requires VotesOk(h)
    ensures VotesOk(WithReign(s, h))
  {
  }

  lemma WinnerElected(s: Node, h: History, members: set<NodeId>)
    requires VotesOk(h) && CandidateOk(s, h) && s.role == Candidate && s.term !in h.reigns
    ensures forall v | v in s.votes :: Elected(WithReign(s, h), s.term, v)
  {
  }

  lemma {:induction false} CrownTraced(s: Node, h: History)
    requires Traced(s.log, h) && s.term !in h.reigns && Slot(s.term, s.id) !in h.acks
    ensures Traced(Crowned(s).log, WithReign(s, h))
  {
    hide Traced, Extends;
    WithReignExtends(s, h);
    ExtendsGrows(h, WithReign(s, h), s.id);
    TracedAppended(s.log, LogEntry(s.term, [], true), h, WithReign(s, h));
  }

  lemma NewReignOk(s: Node, h: History, members: set<NodeId>)
    requires VotesOk(h) && LogOk(s, h) && CandidateOk(s, h) && LocalOk(s, members)
    requires s.role == Candidate && Majority(s.votes, members)
    requires s.term !in h.reigns && Slot(s.term, s.id) !in h.acks
    ensures ReignOk(WithReign(s, h), s.term, members)
  {
    hide VotesOk, Elected, Traced, Ascending, LocalOk;
    var r := WithReign(s, h).reigns[s.term];
    AscendingAppended(s.log, LogEntry(s.term, [], true));
    OlderTerms(s, h);
    CrownTraced(s, h);
    WinnerElected(s, h, members);
    MemberSelf(s, members);
    assert r.start[..|s.log|] == r.log[..|s.log|];
  }

  lemma ReignsCrowned(s: Node, h: History, members: set<NodeId>)
    requires HistoryInv(h, members) && ReignOk(WithReign(s, h), s.term, members)
    requires s.term !in h.reigns && Slot(s.term, s.id) !in h.acks
    ensures forall t | t in WithReign(s, h).reigns :: ReignOk(WithReign(s, h), t, members)
  {
    hide ReignOk, VotesOk, BallotsOk, BallotsRetain;
    var h' := WithReign(s, h);
    WithReignExtends(s, h);
    forall t | t in h'.reigns
      ensures ReignOk(h', t, members)
    {
      if t != s.term {
        ReignKept(h, h', t, members);
      }
    }
  }

  lemma CrownRecorded(s: Node, h: History, members: set<NodeId>)
    requires HistoryInv(h, members) && NodeInv(s, h, members)
    requires s.role == Candidate && Majority(s.votes, members)
    ensures s.term !in h.reigns && Slot(s.term, s.id) !in h.acks
    ensures HistoryInv(WithReign(s, h), members) && Extends(h, WithReign(s, h), s.id)
  {
    hide ReignOk, Traced, Ascending, Retains, Settled, RetainsOk, LocalOk, LeaderOk, CandidateOk, VoteOk, VotesOk,
      AsCurrent, Grows, OnlyBy;
    var h' := WithReign(s, h);
    VotesCrowned(s, h);
    TermUndecided(s, h, members);
    WithReignExtends(s, h);
    NewReignOk(s, h, members);
    ReignsCrowned(s, h, members);
    MemberSelf(s, members);
    BallotsKept(h, h', {});
    BallotsRetainRaised(h, h', members, Slot(s.term, s.id));
  }

  lemma MemberSelf(s: Node, members: set<NodeId>)
    requires LocalOk(s, members)
    ensures s.id in members
  {
  }

  lemma {:induction false} CrownLog(s: Node, h: History, members: set<NodeId>)
    requires LogOk(s, h) && RetainsOk(s, h) && AcksOk(h, members) && Settled(h, s.log, s.commit, s.term, members)
    requires s.term !in h.reigns && Slot(s.term, s.id) !in h.acks && 0 < s.term && s.commit <= |s.log|
    ensures var s', h' := Crowned(s), WithReign(s, h);
            LogOk(s', h') && RetainsOk(s', h') && Settled(h', s'.log, s.commit, s.term, members)
  {
    hide Traced, Ascending, Settled, AcksOk, Retains, Grows, OnlyBy;
    var s', h' := Crowned(s), WithReign(s, h);
    WithReignExtends(s, h);
    OlderTerms(s, h);
    AscendingAppended(s.log, LogEntry(s.term, [], true));
    CrownTraced(s, h);
    assert s.log[..|s.log|] == s'.log[..|s.log|];
    RetainsRaised(s, h, h', members, s'.log);
    SettledGrows(h, h', s.log, s.commit, s.term, s.term, members);
    SettledSame(h', s.log, s'.log, s.commit, s.term, members);
  }

  lemma SettledSame(h: History, a: seq<LogEntry>, b: seq<LogEntry>, k: nat, bound: nat, members: set<NodeId>)
    requires Settled(h, a, k, bound, members) && Agree(a, b, |a|) && k <= |a|
    ensures Settled(h, b, k, bound, members)
  {
    if k > 0 {
      var t: nat, i: nat :| t <= bound && Chosen(h, t, i, members) && k <= i && Agree(a, h.reigns[t].log, k);
      AgreeLess(a, b, |a|, k);
    }
  }

  lemma {:induction false} CrownParts(s: Node, h: History, members: set<NodeId>)
    requires NodeInv(s, h, members) && s.role == Candidate
    requires s.term !in h.reigns && Slot(s.term, s.id) !in h.acks
    ensures var s', h' := Crowned(s), WithReign(s, h);
            PastOk(s', h') && VoteOk(s', h') && CandidateOk(s', h') && LeaderOk(s', h')
  {
    hide LogOk, RetainsOk, Settled, LocalOk, Assign;
    CrownedTracks(s);
  }

  lemma {:induction false} CrownLocal(s: Node, members: set<NodeId>)
    requires LocalOk(s, members)
    ensures LocalOk(Crowned(s), members)
  {
    hide Assign;
    var s' := Crowned(s);
    CrownedTracks(s);
    assert s.log[..s.commit] == s'.log[..s.commit];
    PublishedAgree(s.log, s'.log, s.commit);
    assert s'.Members() == s.Members();
  }

  /** Winning an election. */
  lemma CrownOk(s: Node, h: History, members: set<NodeId>) returns (h': History)
    requires HistoryInv(h, members) && NodeInv(s, h, members)
    requires s.role == Candidate && |s.votes| >= s.Quorum()
    ensures HistoryInv(h', members) && Extends(h, h', s.id)
    ensures NodeInv(Crowned(s), h', members)
  {
    hide ReignOk, BallotsOk, VotesOk, BallotsRetain, Extends, LogOk, Retains, Settled, PastOk, VoteOk, LeaderOk;
    h' := WithReign(s, h);
    assert Majority(s.votes, members);
    CrownRecorded(s, h, members);
    CrownLog(s, h, members);
    CrownParts(s, h, members);
    CrownLocal(s, members);
  }

  lemma ReignBasics(h: History, t: nat, members: set<NodeId>)
    requires HistoryInv(h, members) && t in h.reigns
    ensures 0 < t && AcksOk(h, members)
  {
    assert ReignOk(h, t, members);
  }

  // ---- Proposals ----------------------------------------------------------------------------

  ghost function WithEntry(s: Node, h: History, e: LogEntry): History
    requires s.term in h.reigns
  {
    h.(reigns := h.reigns[s.term := h.reigns[s.term].(log := s.log + [e])],
       acks := h.acks[Slot(s.term, s.id) := |s.log| + 1])
  }

  lemma WithEntryExtends(s: Node, h: History, e: LogEntry)
    requires s.role == Leader && LeaderOk(s, h)
    ensures Extends(h, WithEntry(s, h, e), s.id)
  {
    var h' := WithEntry(s, h, e);
    assert s.log[..|s.log|] == h'.reigns[s.term].log[..|s.log|];
  }

  lemma ReignAppended(s: Node, h: History, members: set<NodeId>, e: LogEntry)
    requires s.role == Leader && LeaderOk(s, h) && ReignOk(h, s.term, members) && e.term == s.term
    requires Traced(s.log, h) && TermsAtMost(s.log, s.term)
    ensures ReignOk(WithEntry(s, h, e), s.term, members)
  {
    var h' := WithEntry(s, h, e);
    hide Traced, Ascending, Grows, OnlyBy, AsCurrent;
    var r, r' := h.reigns[s.term], h'.reigns[s.term];
    WithEntryExtends(s, h, e);
    AscendingAppended(s.log, e);
    TracedAppended(s.log, e, h, h');
    assert r'.start[..|r.start|] == r'.log[..|r.start|] by {
      assert r'.log[..|r.start|] == r.log[..|r.start|];
    }
    forall v | v in r'.voters
      ensures Elected(h', s.term, v)
    {
      assert Elected(h, s.term, v);
    }
  }

  lemma ReignsAppended(s: Node, h: History, members: set<NodeId>, e: LogEntry)
    requires HistoryInv(h, members) && s.role == Leader && LeaderOk(s, h) && LogOk(s, h) && e.term == s.term
    ensures forall t | t in WithEntry(s, h, e).reigns :: ReignOk(WithEntry(s, h, e), t, members)
  {
    hide ReignOk, VotesOk, BallotsOk, BallotsRetain, Traced;
    var h' := WithEntry(s, h, e);
    WithEntryExtends(s, h, e);
    forall t | t in h'.reigns
      ensures ReignOk(h', t, members)
    {
      if t == s.term {
        ReignAppended(s, h, members, e);
      } else {
        ReignKept(h, h', t, members);
      }
    }
  }

  lemma EntryRecorded(s: Node, h: History, members: set<NodeId>, e: LogEntry)
    requires HistoryInv(h, members) && NodeInv(s, h, members)
    requires s.role == Leader && e.term == s.term
    ensures HistoryInv(WithEntry(s, h, e), members) && Extends(h, WithEntry(s, h, e), s.id)
  {
    hide ReignOk, Traced, Ascending, Retains, Settled, RetainsOk, LocalOk, CandidateOk, VoteOk, AsCurrent;
    var h' := WithEntry(s, h, e);
    WithEntryExtends(s, h, e);
    ReignsAppended(s, h, members, e);
    MemberSelf(s, members);
    BallotsKept(h, h', {});
    BallotsRetainRaised(h, h', members, Slot(s.term, s.id));
  }

  lemma EntryLog(s: Node, h: History, members: set<NodeId>, e: LogEntry)
    requires LogOk(s, h) && RetainsOk(s, h) && AcksOk(h, members) && Settled(h, s.log, s.commit, s.term, members)
    requires s.role == Leader && LeaderOk(s, h) && s.commit <= |s.log| && e.term == s.term && 0 < s.term
    ensures var s', h' := s.(log := s.log + [e]), WithEntry(s, h, e);
            LogOk(s', h') && RetainsOk(s', h') && Settled(h', s'.log, s.commit, s.term, members)
  {
    hide Traced, Ascending, Settled, AcksOk, RetainsOk, Grows, OnlyBy;
    var s', h' := s.(log := s.log + [e]), WithEntry(s, h, e);
    WithEntryExtends(s, h, e);
    AscendingAppended(s.log, e);
    TracedAppended(s.log, e, h, h');
    assert s.log[..|s.log|] == s'.log[..|s.log|];
    RetainsRaised(s, h, h', members, s'.log);
    SettledGrows(h, h', s.log, s.commit, s.term, s.term, members);
    SettledSame(h', s.log, s'.log, s.commit, s.term, members);
  }

  lemma EntryParts(s: Node, h: History, members: set<NodeId>, e: LogEntry)
    requires NodeInv(s, h, members) && s.role == Leader && e.term == s.term
    ensures var s', h' := s.(log := s.log + [e]).Persist(), WithEntry(s, h, e);
            LocalOk(s', members) && PastOk(s', h') && VoteOk(s', h') && CandidateOk(s', h') && LeaderOk(s', h')
  {
    hide Traced, Ascending, Retains, Settled, Carried;
    var s' := s.(log := s.log + [e]).Persist();
    assert s.log[..s.commit] == s'.log[..s.commit];
    PublishedAgree(s.log, s'.log, s.commit);
    assert s'.Members() == s.Members();
  }

  /** A leader appends a client command. */
  lemma AppendedOk(s: Node, h: History, members: set<NodeId>, command: seq<byte>) returns (h': History)
    requires HistoryInv(h, members) && NodeInv(s, h, members) && s.role == Leader
    ensures HistoryInv(h', members) && Extends(h, h', s.id)
    ensures NodeInv(Appended(s, command), h', members)
  {
    hide HistoryInv, Extends, Traced, Ascending, Retains, Settled, TermsAtMost, PastOk, VoteOk;
    var e := LogEntry(s.term, command, false);
    h' := WithEntry(s, h, e);
    ReignBasics(h, s.term, members);
    EntryRecorded(s, h, members, e);
    EntryLog(s, h, members, e);
    EntryParts(s, h, members, e);
  }
}
