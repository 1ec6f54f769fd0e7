/** What one node adds to the history disturbs no message and no other node. */
module Growth {
  import opened RaftTypes
  import opened NodeSpec
  import opened History

  lemma GrowsSelf(h: History, n: NodeId)
    ensures Extends(h, h, n)
  {
  }

  lemma GrowsTrans(h1: History, h2: History, h3: History)
    requires Grows(h1, h2) && Grows(h2, h3)
    ensures Grows(h1, h3)
  {
    forall t | t in h1.reigns
      ensures t in h3.reigns && ReignGrows(h1.reigns[t], h3.reigns[t])
    {
      assert ReignGrows(h1.reigns[t], h2.reigns[t]) && ReignGrows(h2.reigns[t], h3.reigns[t]);
      AgreeLess(h2.reigns[t].log, h3.reigns[t].log, |h2.reigns[t].log|, |h1.reigns[t].log|);
    }
  }

  lemma ExtendsTrans(h1: History, h2: History, h3: History, n: NodeId)
    requires Extends(h1, h2, n) && Extends(h2, h3, n)
    ensures Extends(h1, h3, n)
  {
    GrowsTrans(h1, h2, h3);
  }

  /** Agreement with a reign's log outlives the growth of that log. */
  lemma AgreeGrows(h: History, h': History, t: nat, log: seq<LogEntry>, m: nat)
    requires Grows(h, h') && t in h.reigns && Agree(log, h.reigns[t].log, m)
    ensures t in h'.reigns && Agree(log, h'.reigns[t].log, m)
  {
    assert ReignGrows(h.reigns[t], h'.reigns[t]);
    AgreeLess(h.reigns[t].log, h'.reigns[t].log, |h.reigns[t].log|, m);
  }

  lemma TracedGrows(log: seq<LogEntry>, h: History, h': History)
    requires Traced(log, h) && Grows(h, h')
    ensures Traced(log, h')
  {
    forall k | 0 <= k < |log|
      ensures log[k].term in h'.reigns && Agree(log, h'.reigns[log[k].term].log, k + 1)
    {
      AgreeGrows(h, h', log[k].term, log, k + 1);
    }
  }

  lemma SubsetSmaller<T>(a: set<T>, b: set<T>)
    requires a <= b
    ensures |a| <= |b|
  {
    assert b == a + (b - a);
  }

  /** Choices are final. */
  lemma ChosenGrows(h: History, h': History, t: nat, i: nat, members: set<NodeId>)
    requires Chosen(h, t, i, members) && Grows(h, h')
    ensures Chosen(h', t, i, members)
  {
    assert ReignGrows(h.reigns[t], h'.reigns[t]);
    AgreeAt(h.reigns[t].log, h'.reigns[t].log, |h.reigns[t].log|, i - 1);
    SubsetSmaller(Holders(h, t, i, members), Holders(h', t, i, members));
  }

  lemma SettledGrows(h: History, h': History, log: seq<LogEntry>, k: nat, bound: nat, bound': nat, members: set<NodeId>)
    requires Settled(h, log, k, bound, members) && Grows(h, h') && bound <= bound'
    ensures Settled(h', log, k, bound', members)
  {
    if k > 0 {
      var t: nat, i: nat :| t <= bound && Chosen(h, t, i, members) && k <= i && Agree(log, h.reigns[t].log, k);
      ChosenGrows(h, h', t, i, members);
      AgreeGrows(h, h', t, log, k);
    }
  }

  /** New leaders only make it harder for a prefix to have been carried by all. */
  lemma CarriedBefore(h: History, h': History, t: nat, end: nat, end': nat, m: nat)
    requires Grows(h, h') && t in h.reigns && m <= |h.reigns[t].log| && end <= end'
    requires Carried(h', t, end', m)
    ensures Carried(h, t, end, m)
  {
    forall u | u in h.reigns && t < u < end
      ensures Agree(h.reigns[t].log, h.reigns[u].start, m)
    {
      assert ReignGrows(h.reigns[u], h'.reigns[u]) && ReignGrows(h.reigns[t], h'.reigns[t]);
      AgreeLess(h.reigns[t].log, h'.reigns[t].log, |h.reigns[t].log|, m);
    }
  }

  lemma RetainsGrows(h: History, h': History, a: Slot, log: seq<LogEntry>, end: nat, end': nat)
    requires Grows(h, h') && end <= end'
    requires a in h.acks && a.term in h.reigns && h.acks[a] <= |h.reigns[a.term].log|
    requires a in h'.acks && h'.acks[a] == h.acks[a]
    requires Retains(h, a, log, end)
    ensures a.term in h'.reigns && Retains(h', a, log, end')
  {
    assert ReignGrows(h.reigns[a.term], h'.reigns[a.term]);
    forall m | 0 <= m <= h'.acks[a] && Carried(h', a.term, end', m)
      ensures Agree(h'.reigns[a.term].log, log, m)
    {
      CarriedBefore(h, h', a.term, end, end', m);
      AgreeLess(h.reigns[a.term].log, h'.reigns[a.term].log, |h.reigns[a.term].log|, m);
    }
  }

  lemma SliceKept(a: seq<LogEntry>, b: seq<LogEntry>, from: nat, to: nat)
    requires Agree(a, b, |a|) && from <= to <= |a|
    ensures a[from..to] == b[from..to]
  {
    assert a[from..to] == a[..|a|][from..to];
    assert b[from..to] == b[..|a|][from..to];
  }

  /** The settled prefix of a log is settled in every log that extends it. */
  lemma SettledExtended(h: History, a: seq<LogEntry>, b: seq<LogEntry>, k: nat, bound: nat, members: set<NodeId>)
    requires Settled(h, a, k, bound, members) && Agree(a, b, |a|) && k <= |a|
    ensures Settled(h, b, k, bound, members)
  {
    if k > 0 {
      var t: nat, i: nat :| t <= bound && Chosen(h, t, i, members) && k <= i && Agree(a, h.reigns[t].log, k);
      AgreeLess(a, b, |a|, k);
      assert Agree(b, h.reigns[t].log, k);
    }
  }

  lemma MessageKept(m: Message, h: History, h': History, members: set<NodeId>)
    requires MessageInv(m, h, members) && Grows(h, h')
    ensures MessageInv(m, h', members)
  {
    if m.rpc.AppendRequest? {
      var q := m.rpc;
      var a, b := h.reigns[q.term].log, h'.reigns[q.term].log;
      assert ReignGrows(h.reigns[q.term], h'.reigns[q.term]);
      SliceKept(a, b, q.prevIndex, q.prevIndex + |q.entries|);
      if q.prevIndex > 0 {
        AgreeAt(a, b, |a|, q.prevIndex - 1);
      }
      SettledGrows(h, h', a, q.leaderCommit, q.term, q.term, members);
      hide Settled;
      SettledExtended(h', a, b, q.leaderCommit, q.term, members);
    }
  }

  lemma NodeKept(s: Node, h: History, h': History, n: NodeId, members: set<NodeId>)
    requires NodeInv(s, h, members) && AcksOk(h, members)
    requires Extends(h, h', n) && s.id != n
    ensures NodeInv(s, h', members)
  {
    TracedGrows(s.log, h, h');
    SettledGrows(h, h', s.log, s.commit, s.term, s.term, members);
    assert RetainsOk(s, h') by {
      forall a | a in h'.acks && a.node == s.id
        ensures a.term in h'.reigns && a.term <= s.term && Retains(h', a, s.log, s.term + 1)
      {
        assert a in h.acks;
        RetainsGrows(h, h', a, s.log, s.term + 1, s.term + 1);
      }
    }
    assert LeaderOk(s, h') by {
      if s.role == Leader {
        assert h'.reigns[s.term] == h.reigns[s.term];
        forall p | p in s.peers && p in s.matched && 0 < s.matched[p]
          ensures Slot(s.term, p) in h'.acks && s.matched[p] <= h'.acks[Slot(s.term, p)]
        {
          assert Slot(s.term, p) in h.acks;
        }
      }
    }
  }
}
