/** A follower accepting a replication request preserves the invariant, and the branches that guard
    against damaged logs are never taken. */
module Acceptance {
  import opened RaftTypes
  import opened NodeSpec
  import opened History
  import opened Growth
  import opened Completeness
  import opened Elections
  import opened Leadership
  import opened Replication

  /** The request comes from the leader of the node's current term and its previous entry matches. */
  ghost predicate Matching(s: Node, m: Message, h: History, members: set<NodeId>) {
    && m.rpc.AppendRequest? && RequestOk(m, h, members)
    && m.rpc.term == s.term && PrevMatches(s.log, m.rpc)
  }

  /** A matching previous entry means the whole prefix is the leader's. */
  lemma PrefixShared(s: Node, m: Message, h: History, members: set<NodeId>)
    requires HistoryInv(h, members) && LogOk(s, h) && Matching(s, m, h, members)
    ensures SliceOf(m.rpc, h.reigns[s.term].log)
    ensures Agree(s.log, h.reigns[s.term].log, m.rpc.prevIndex)
  {
    hide BallotsOk, VotesOk, BallotsRetain, AcksOk, Settled, Ascending;
    assert ReignOk(h, s.term, members);
    if m.rpc.prevIndex > 0 {
      TracedMatch(s.log, h.reigns[s.term].log, m.rpc.prevIndex - 1, h);
    }
  }

  /** No offered entry contradicts a stored entry of the same term, and none contradicts a
      committed entry. */
  lemma {:induction false} NoDamage(s: Node, m: Message, h: History, members: set<NodeId>)
    requires HistoryInv(h, members) && LogOk(s, h) && Matching(s, m, h, members)
    requires Settled(h, s.log, s.commit, s.term, members)
    ensures var o := Compare(s.log, m.rpc.prevIndex, m.rpc.entries, 0);
            !o.Corrupt? && (o.Conflict? ==> m.rpc.prevIndex + o.count >= s.commit)
  {
    hide BallotsOk, VotesOk, BallotsRetain, AcksOk, Settled, Ascending, Compare, Traced, Elected;
    var q, full := m.rpc, h.reigns[s.term].log;
    PrefixShared(s, m, h, members);
    SettledHeld(h, members, s.log, s.commit, s.term);
    assert ReignOk(h, s.term, members);
    CommittedApart(s.log, full, q, s.commit, h);
  }

  lemma {:induction false} CommittedApart(log: seq<LogEntry>, full: seq<LogEntry>, q: Rpc, commit: nat, h: History)
    requires Traced(log, h) && Traced(full, h) && Agree(log, full, commit)
    requires q.AppendRequest? && SliceOf(q, full) && q.prevIndex <= |log|
    ensures var o := Compare(log, q.prevIndex, q.entries, 0);
            !o.Corrupt? && (o.Conflict? ==> q.prevIndex + o.count >= commit)
  {
    hide Compare, Traced;
    var o := Compare(log, q.prevIndex, q.entries, 0);
    CompareStops(log, q.prevIndex, q.entries, 0);
    if !o.Reached? {
      var p := q.prevIndex + o.count;
      assert q.entries[o.count] == full[p];
      DifferentTerms(log, full, p, h);
      if p < commit {
        AgreeAt(log, full, commit, p);
        assert false;
      }
    }
  }

  /** Where two traced logs differ, their terms differ. */
  lemma DifferentTerms(a: seq<LogEntry>, b: seq<LogEntry>, k: nat, h: History)
    requires Traced(a, h) && Traced(b, h) && k < |a| && k < |b| && a[k] != b[k]
    ensures a[k].term != b[k].term
  {
    if a[k].term == b[k].term {
      TracedMatch(a, b, k, h);
      AgreeAt(a, b, k + 1, k);
      assert false;
    }
  }

  ghost function WithAck(h: History, k: Slot, index: nat): History {
    h.(acks := h.acks[k := if k in h.acks then Max(h.acks[k], index) else index])
  }

  lemma WithAckExtends(h: History, k: Slot, index: nat)
    ensures Extends(h, WithAck(h, k, index), k.node)
  {
  }

  lemma AckRecorded(s: Node, h: History, members: set<NodeId>, index: nat)
    requires HistoryInv(h, members) && PastOk(s, h) && s.id in members
    requires s.term in h.reigns && index <= |h.reigns[s.term].log|
    ensures HistoryInv(WithAck(h, Slot(s.term, s.id), index), members)
    ensures Extends(h, WithAck(h, Slot(s.term, s.id), index), s.id)
  {
    hide ReignOk, Traced, Ascending, Retains, Grows, OnlyBy, AsCurrent;
    var h' := WithAck(h, Slot(s.term, s.id), index);
    WithAckExtends(h, Slot(s.term, s.id), index);
    ReignsKept(h, h', members);
    BallotsKept(h, h', {});
    BallotsRetainRaised(h, h', members, Slot(s.term, s.id));
  }

  /** The log after accepting: traced, ascending and within the term. */
  lemma MergedLogOk(s: Node, m: Message, h: History, members: set<NodeId>)
    requires HistoryInv(h, members) && LogOk(s, h) && Matching(s, m, h, members)
    ensures LogOk(s.(log := Merged(s.log, m.rpc)), h)
  {
    hide HistoryInv, RequestOk, Merged, Traced, Ascending;
    RequestTerm(m, h, members);
    var log, full := Merged(s.log, m.rpc), h.reigns[s.term].log;
    PrefixShared(s, m, h, members);
    MergedReaches(s.log, m.rpc, full);
    if log != s.log {
      var e := m.rpc.prevIndex + |m.rpc.entries|;
      assert full[..e] == full[..e][..e];
      ReignPrefix(h, members, s.term, log);
    }
  }

  lemma ReignPrefix(h: History, members: set<NodeId>, t: nat, log: seq<LogEntry>)
    requires HistoryInv(h, members) && t in h.reigns && Agree(log, h.reigns[t].log, |log|)
    ensures Traced(log, h) && Ascending(log) && TermsAtMost(log, t)
  {
    hide BallotsOk, VotesOk, BallotsRetain, AcksOk, Elected, Traced;
    assert ReignOk(h, t, members);
    var full := h.reigns[t].log;
    TracedPrefix(full, log, h);
    assert log == full[..|log|];
    forall k | 0 <= k < |log|
      ensures log[k].term <= t
    {
      if k < |h.reigns[t].start| {
        AgreeAt(h.reigns[t].start, full, |h.reigns[t].start|, k);
      }
    }
  }

  /** Whatever the node shares with its leader it still holds after accepting. */
  lemma SharedKept(s: Node, m: Message, h: History, members: set<NodeId>, other: seq<LogEntry>, k: nat)
    requires HistoryInv(h, members) && LogOk(s, h) && Matching(s, m, h, members)
    requires s.term in h.reigns && Agree(other, s.log, k) && Agree(other, h.reigns[s.term].log, k)
    ensures Agree(other, Merged(s.log, m.rpc), k)
  {
    hide HistoryInv, LogOk, RequestOk, Merged;
    RequestTerm(m, h, members);
    PrefixShared(s, m, h, members);
    MergedKeeps(s.log, m.rpc, h.reigns[s.term].log, k);
  }

  /** Everything acknowledged so far, and now the request itself, is held by the new log. */
  lemma MergedRetains(s: Node, m: Message, h: History, members: set<NodeId>)
    requires HistoryInv(h, members) && LogOk(s, h) && RetainsOk(s, h) && Matching(s, m, h, members)
    ensures RetainsOk(s.(log := Merged(s.log, m.rpc)),
                      WithAck(h, Slot(s.term, s.id), m.rpc.prevIndex + |m.rpc.entries|))
  {
    hide HistoryInv, Traced, RequestOk, Merged, Ascending, Grows, OnlyBy;
    var e := m.rpc.prevIndex + |m.rpc.entries|;
    var h' := WithAck(h, Slot(s.term, s.id), e);
    var log := Merged(s.log, m.rpc);
    forall a | a in h'.acks && a.node == s.id
      ensures a.term in h'.reigns && a.term <= s.term && Retains(h', a, log, s.term + 1)
    {
      assert a.term in h.reigns by {
        RequestTerm(m, h, members);
      }
      forall k | 0 <= k <= h'.acks[a] && Carried(h', a.term, s.term + 1, k)
        ensures Agree(h'.reigns[a.term].log, log, k)
      {
        MergedRetainsOne(s, m, h, members, a, k);
      }
    }
  }

  lemma RequestTerm(m: Message, h: History, members: set<NodeId>)
    requires m.rpc.AppendRequest? && RequestOk(m, h, members)
    ensures m.rpc.term in h.reigns && m.rpc.prevIndex + |m.rpc.entries| <= |h.reigns[m.rpc.term].log|
  {
  }

  lemma MergedRetainsOne(s: Node, m: Message, h: History, members: set<NodeId>, a: Slot, k: nat)
    requires HistoryInv(h, members) && LogOk(s, h) && RetainsOk(s, h) && Matching(s, m, h, members)
    requires a.node == s.id && a.term in h.reigns
    requires var h' := WithAck(h, Slot(s.term, s.id), m.rpc.prevIndex + |m.rpc.entries|);
             a in h'.acks && k <= h'.acks[a] && Carried(h', a.term, s.term + 1, k)
    ensures Agree(h.reigns[a.term].log, Merged(s.log, m.rpc), k)
  {
    hide HistoryInv, Traced, RequestOk, Merged, Ascending;
    RequestTerm(m, h, members);
    var full := h.reigns[s.term].log;
    var e := m.rpc.prevIndex + |m.rpc.entries|;
    PrefixShared(s, m, h, members);
    if a.term == s.term && k <= e {
      MergedReaches(s.log, m.rpc, full);
      AgreeLess(Merged(s.log, m.rpc), full, e, k);
    } else {
      assert a in h.acks && k <= h.acks[a];
      assert Carried(h, a.term, s.term + 1, k);
      assert Agree(h.reigns[a.term].log, s.log, k);
      if a.term < s.term {
        StartHeld(h, members, s.term, k, h.reigns[a.term].log);
      }
      SharedKept(s, m, h, members, h.reigns[a.term].log, k);
    }
  }

  lemma StartHeld(h: History, members: set<NodeId>, t: nat, k: nat, other: seq<LogEntry>)
    requires HistoryInv(h, members) && t in h.reigns && Agree(other, h.reigns[t].start, k)
    ensures Agree(other, h.reigns[t].log, k)
  {
    assert ReignOk(h, t, members);
    AgreeLess(h.reigns[t].start, h.reigns[t].log, |h.reigns[t].start|, k);
  }

  /** What was settled stays settled, and what the request commits is settled for the new log. */
  lemma MergedSettled(s: Node, m: Message, h: History, members: set<NodeId>)
    requires HistoryInv(h, members) && LogOk(s, h) && Matching(s, m, h, members)
    requires Settled(h, s.log, s.commit, s.term, members)
    ensures Settled(h, Merged(s.log, m.rpc), s.commit, s.term, members)
    ensures Agree(s.log, Merged(s.log, m.rpc), s.commit)
    ensures Settled(h, Merged(s.log, m.rpc), m.rpc.leaderCommit, s.term, members)
    ensures m.rpc.leaderCommit <= |Merged(s.log, m.rpc)|
  {
    hide HistoryInv, LogOk, Chosen, Merged;
    var log, full := Merged(s.log, m.rpc), h.reigns[s.term].log;
    PrefixShared(s, m, h, members);
    MergedReaches(s.log, m.rpc, full);
    SettledHeld(h, members, s.log, s.commit, s.term);
    assert Agree(s.log, s.log, s.commit);
    SharedKept(s, m, h, members, s.log, s.commit);
    if s.commit > 0 {
      var t, i := SettledBy(h, s.log, s.commit, s.term, members);
      assert Agree(log, h.reigns[t].log, s.commit);
    }
    var lc := m.rpc.leaderCommit;
    AgreeLess(log, full, m.rpc.prevIndex + |m.rpc.entries|, lc);
    if lc > 0 {
      var t, i := SettledBy(h, full, lc, s.term, members);
      assert Agree(log, h.reigns[t].log, lc);
    }
  }

  /** The node after installing the entries. */
  ghost function Installed(s: Node, req: Rpc): Node
    requires req.AppendRequest? && req.prevIndex <= |s.log|
  {
    CompareBounds(s.log, req.prevIndex, req.entries, 0);
    Install(s, req, Compare(s.log, req.prevIndex, req.entries, 0).count)
  }

  lemma {:induction false} InstalledLocal(s: Node, m: Message, members: set<NodeId>)
    requires LocalOk(s, members) && s.role == Follower
    requires m.rpc.AppendRequest? && m.rpc.prevIndex <= |s.log|
    requires Agree(s.log, Merged(s.log, m.rpc), s.commit)
    ensures LocalOk(Installed(s, m.rpc), members)
    ensures Installed(s, m.rpc).log == Merged(s.log, m.rpc)
  {
    hide Compare, Published;
    var s' := Installed(s, m.rpc);
    PublishedAgree(s.log, Merged(s.log, m.rpc), s.commit);
    assert s'.Members() == s.Members();
  }

  lemma InstalledOk(s: Node, m: Message, h: History, members: set<NodeId>) returns (h': History)
    requires HistoryInv(h, members) && NodeInv(s, h, members) && s.role == Follower
    requires Matching(s, m, h, members)
    ensures HistoryInv(h', members) && Extends(h, h', s.id)
    ensures NodeInv(Installed(s, m.rpc), h', members)
    ensures Installed(s, m.rpc).log == Merged(s.log, m.rpc)
    ensures h' == WithAck(h, Slot(s.term, s.id), m.rpc.prevIndex + |m.rpc.entries|)
  {
    hide HistoryInv, Extends, Traced, Ascending, Retains, Settled, RequestOk, Merged, LocalOk, Compare, PastOk;
    var e := m.rpc.prevIndex + |m.rpc.entries|;
    h' := WithAck(h, Slot(s.term, s.id), e);
    RequestTerm(m, h, members);
    MemberSelf(s, members);
    AckRecorded(s, h, members, e);
    MergedSettled(s, m, h, members);
    MergedLogOk(s, m, h, members);
    MergedRetains(s, m, h, members);
    InstalledLocal(s, m, members);
    var s' := Installed(s, m.rpc);
    ExtendsGrows(h, h', s.id);
    TracedGrows(s'.log, h, h');
    SettledGrows(h, h', s'.log, s.commit, s.term, s.term, members);
    AckPast(s, h, Slot(s.term, s.id), e);
    hide WithAck;
    PastSame(s, s', h');
    InstalledSame(s, m.rpc);
    hide Installed;
    assert LogOk(s', h');
    assert RetainsOk(s', h');
    assert VoteOk(s', h');
  }

  lemma AckPast(s: Node, h: History, k: Slot, index: nat)
    requires PastOk(s, h) && VoteOk(s, h)
    ensures PastOk(s, WithAck(h, k, index)) && VoteOk(s, WithAck(h, k, index))
  {
  }

  lemma {:induction false} InstalledSame(s: Node, req: Rpc)
    requires req.AppendRequest? && req.prevIndex <= |s.log|
    ensures var s' := Installed(s, req);
            && s'.id == s.id && s'.peers == s.peers && s'.role == s.role && s'.term == s.term && s'.vote == s.vote
            && s'.leader == s.leader && s'.commit == s.commit
  {
    hide Compare;
  }

  lemma AcknowledgeOk(s: Node, m: Message, h: History, members: set<NodeId>)
    requires NodeInv(s, h, members) && OutboxOk(s, h, members)
    requires m.rpc.AppendRequest? && m.rpc.leaderCommit <= |s.log|
    requires Settled(h, s.log, m.rpc.leaderCommit, s.term, members)
    requires var e := m.rpc.prevIndex + |m.rpc.entries|;
             MessageInv(Message(s.id, m.from, AppendResponse(s.term, true, e, e + 1, None, m.rpc.requestId)),
                        h, members)
    ensures var s' := Acknowledge(s, m.from, m.rpc);
            NodeInv(s', h, members) && OutboxOk(s', h, members)
  {
    hide NodeInv, Settled, OutboxOk;
    var e := m.rpc.prevIndex + |m.rpc.entries|;
    var s1 := if m.rpc.leaderCommit > s.commit then CommitTo(s, m.rpc.leaderCommit) else s;
    if m.rpc.leaderCommit > s.commit {
      CommitToOk(s, h, members, m.rpc.leaderCommit);
    }
    OutboxSame(s, s1, h, members);
    SendOk(s1, m.from, AppendResponse(s1.term, true, e, e + 1, None, m.rpc.requestId), h, members);
  }

  /** Accepting a request: log, commit index and acknowledgement together. */
  lemma AcceptOk(s: Node, m: Message, h: History, members: set<NodeId>) returns (h': History)
    requires HistoryInv(h, members) && NodeInv(s, h, members) && OutboxOk(s, h, members) && s.role == Follower
    requires Matching(s, m, h, members)
    ensures HistoryInv(h', members) && Extends(h, h', s.id)
    ensures var s' := Acknowledge(Installed(s, m.rpc), m.from, m.rpc);
            NodeInv(s', h', members) && OutboxOk(s', h', members)
    ensures NodeInv(Installed(s, m.rpc), h', members)
  {
    hide HistoryInv, NodeInv, Extends, Settled, RequestOk, OutboxOk, Merged;
    h' := InstalledOk(s, m, h, members);
    var s1 := Installed(s, m.rpc);
    NodeSettled(s, h, members);
    MergedSettled(s, m, h, members);
    ExtendsGrows(h, h', s.id);
    SettledGrows(h, h', s1.log, m.rpc.leaderCommit, s.term, s.term, members);
    RequestTerm(m, h, members);
    OutboxGrows(s, h, h', members);
    OutboxSame(s, s1, h', members);
    AcknowledgeOk(s1, m, h', members);
  }

  lemma NodeSettled(s: Node, h: History, members: set<NodeId>)
    requires NodeInv(s, h, members)
    ensures Settled(h, s.log, s.commit, s.term, members) && LogOk(s, h)
  {
  }

  lemma OutboxSame(s: Node, s': Node, h: History, members: set<NodeId>)
    requires OutboxOk(s, h, members) && s'.outbox == s.outbox
    ensures OutboxOk(s', h, members)
  {
  }

  lemma OutboxGrows(s: Node, h: History, h': History, members: set<NodeId>)
    requires OutboxOk(s, h, members) && Extends(h, h', s.id)
    ensures OutboxOk(s, h', members)
  {
    hide MessageInv;
    forall m | m in s.outbox
      ensures MessageInv(m, h', members)
    {
      MessageKept(m, h, h', members);
    }
  }
}
