/** Leader Completeness over the history: what was chosen in a term is in the log of every leader
    elected later. */
module Completeness {
  import opened RaftTypes
  import opened NodeSpec
  import opened History
  import opened Growth

  /** Two traced logs with the same term at an index are identical up to that index. */
  lemma TracedMatch(a: seq<LogEntry>, b: seq<LogEntry>, k: nat, h: History)
    requires Traced(a, h) && Traced(b, h)
    requires k < |a| && k < |b| && a[k].term == b[k].term
    ensures Agree(a, b, k + 1)
  {
    assert Agree(a, h.reigns[a[k].term].log, k + 1) && Agree(b, h.reigns[b[k].term].log, k + 1);
  }

  lemma MajoritiesMeet(p: set<NodeId>, q: set<NodeId>, members: set<NodeId>)
    requires Majority(p, members) && Majority(q, members)
    ensures p * q != {}
  {
    if p * q == {} {
      assert |p + q| == |p| + |q|;
      SubsetSmaller(p + q, members);
    }
  }

  lemma TracedPrefix(log: seq<LogEntry>, prefix: seq<LogEntry>, h: History)
    requires Traced(log, h) && Agree(prefix, log, |prefix|)
    ensures Traced(prefix, h)
  {
    forall k | 0 <= k < |prefix|
      ensures prefix[k].term in h.reigns && Agree(prefix, h.reigns[prefix[k].term].log, k + 1)
    {
      AgreeAt(prefix, log, |prefix|, k);
      AgreeLess(prefix, log, |prefix|, k + 1);
      assert Agree(log, h.reigns[log[k].term].log, k + 1);
    }
  }

  /** Two traced logs that end in the same term: the longer one extends the other. */
  lemma SameLastTerm(h: History, ballot: seq<LogEntry>, log: seq<LogEntry>)
    requires Traced(ballot, h) && Traced(log, h)
    requires 0 < |ballot| <= |log| && LastTerm(ballot) == LastTerm(log)
    ensures Agree(ballot, log, |ballot|)
  {
    var w := LastTerm(log);
    assert Agree(ballot, h.reigns[w].log, |ballot|);
    assert Agree(log, h.reigns[w].log, |log|);
    AgreeLess(log, h.reigns[w].log, |log|, |ballot|);
  }

  /** A log ending in a later term is longer than any prefix of earlier terms that term's leader
      started with, and so contains it. */
  lemma LaterTermHolds(h: History, members: set<NodeId>, w: nat, prefix: seq<LogEntry>, i: nat, log: seq<LogEntry>)
    requires w in h.reigns && ReignOk(h, w, members)
    requires log != [] && LastTerm(log) == w && Traced(log, h)
    requires Agree(prefix, h.reigns[w].start, i)
    ensures Agree(prefix, log, i)
  {
    var r := h.reigns[w];
    assert Agree(log, r.log, |log|);
    if |log| <= i {
      AgreeAt(log, r.log, |log|, |log| - 1);
      assert false;
    }
    AgreeLess(log, r.log, |log|, i);
    AgreeLess(r.start, r.log, |r.start|, i);
  }

  /** A log at least as current as a ballot that holds a chosen prefix holds that prefix too, if
      every leader in between started with it. */
  lemma CurrentHolds(h: History, members: set<NodeId>, t: nat, i: nat,
                     ballot: seq<LogEntry>, log: seq<LogEntry>, u: nat)
    requires LastTerm(log) in h.reigns ==> ReignOk(h, LastTerm(log), members)
    requires t in h.reigns && 0 < t && 0 < i <= |h.reigns[t].log| && h.reigns[t].log[i - 1].term == t
    requires Carried(h, t, u, i)
    requires Traced(ballot, h) && Ascending(ballot) && Traced(log, h)
    requires forall k | 0 <= k < |log| :: log[k].term < u
    requires Agree(h.reigns[t].log, ballot, i)
    requires AsCurrent(LastTerm(log), |log|, ballot)
    ensures Agree(h.reigns[t].log, log, i)
  {
    AgreeAt(h.reigns[t].log, ballot, i, i - 1);
    assert t <= LastTerm(ballot);
    var w := LastTerm(log);
    assert log != [];
    if w == LastTerm(ballot) {
      SameLastTerm(h, ballot, log);
      AgreeLess(ballot, log, |ballot|, i);
    } else {
      assert w in h.reigns && t < w < u;
      LaterTermHolds(h, members, w, h.reigns[t].log, i, log);
    }
  }

  /** Leader Completeness. */
  lemma {:induction false} ChosenCarried(h: History, members: set<NodeId>, t: nat, i: nat, u: nat)
    requires HistoryInv(h, members) && Chosen(h, t, i, members)
    requires u in h.reigns && t < u
    ensures Agree(h.reigns[t].log, h.reigns[u].start, i)
    decreases u
  {
    forall v | v in h.reigns && t < v < u
      ensures Agree(h.reigns[t].log, h.reigns[v].start, i)
    {
      ChosenCarried(h, members, t, i, v);
    }
    assert ReignOk(h, u, members);
    var r := h.reigns[u];
    MajoritiesMeet(Holders(h, t, i, members), r.voters, members);
    var n :| n in Holders(h, t, i, members) && n in r.voters;
    var a, b := Slot(t, n), Slot(u, n);
    assert Elected(h, u, n);
    assert Retains(h, a, h.ballots[b], u);
    assert Agree(h.reigns[t].log, h.ballots[b], i);
    TracedPrefix(r.log, r.start, h);
    assert ReignOk(h, t, members);
    CurrentHolds(h, members, t, i, h.ballots[b], r.start, u);
  }

  lemma ChosenHeld(h: History, members: set<NodeId>, t: nat, i: nat, u: nat)
    requires HistoryInv(h, members) && Chosen(h, t, i, members)
    requires u in h.reigns && t <= u
    ensures Agree(h.reigns[t].log, h.reigns[u].log, i)
  {
    if t < u {
      ChosenCarried(h, members, t, i, u);
      assert ReignOk(h, u, members);
      AgreeLess(h.reigns[u].start, h.reigns[u].log, |h.reigns[u].start|, i);
    }
  }

  /** The choice behind a settled prefix. */
  lemma SettledBy(h: History, log: seq<LogEntry>, k: nat, bound: nat, members: set<NodeId>) returns (t: nat, i: nat)
    requires Settled(h, log, k, bound, members) && k > 0
    ensures t <= bound && t in h.reigns && Chosen(h, t, i, members) && k <= i && Agree(log, h.reigns[t].log, k)
  {
    t, i :| t <= bound && Chosen(h, t, i, members) && k <= i && Agree(log, h.reigns[t].log, k);
  }

  /** What is settled is in the log of every leader from its term on. */
  lemma SettledHeld(h: History, members: set<NodeId>, log: seq<LogEntry>, k: nat, u: nat)
    requires HistoryInv(h, members) && Settled(h, log, k, u, members) && u in h.reigns
    ensures Agree(log, h.reigns[u].log, k)
  {
    hide HistoryInv, Settled, Chosen;
    if k > 0 {
      var t, i := SettledBy(h, log, k, u, members);
      ChosenHeld(h, members, t, i, u);
      AgreeLess(h.reigns[t].log, h.reigns[u].log, i, k);
    }
  }

  /** What is settled is in the starting log of every later leader. */
  lemma SettledCarried(h: History, members: set<NodeId>, log: seq<LogEntry>, k: nat, bound: nat, u: nat)
    requires HistoryInv(h, members) && Settled(h, log, k, bound, members) && k <= |log| && bound < u && u in h.reigns
    ensures Agree(log, h.reigns[u].start, k)
  {
    hide HistoryInv, Settled, Chosen;
    if k > 0 {
      var t, i := SettledBy(h, log, k, bound, members);
      ChosenCarried(h, members, t, i, u);
      AgreeLess(h.reigns[t].log, h.reigns[u].start, i, k);
    }
  }

  lemma ChosenAgree(h: History, members: set<NodeId>, t: nat, i: nat, u: nat, j: nat)
    requires HistoryInv(h, members)
    requires t in h.reigns && Chosen(h, t, i, members)
    requires u in h.reigns && Chosen(h, u, j, members)
    ensures Agree(h.reigns[t].log, h.reigns[u].log, Min(i, j))
  {
    hide HistoryInv, Chosen, Agree;
    if t <= u {
      ChosenHeld(h, members, t, i, u);
      AgreeLess(h.reigns[t].log, h.reigns[u].log, i, Min(i, j));
    } else {
      ChosenHeld(h, members, u, j, t);
      AgreeLess(h.reigns[u].log, h.reigns[t].log, j, Min(i, j));
      AgreeSym(h.reigns[u].log, h.reigns[t].log, Min(i, j));
    }
  }

  /** Two settled prefixes never disagree. */
  lemma SettledAgree(h: History, members: set<NodeId>,
                     a: seq<LogEntry>, j: nat, s: nat, b: seq<LogEntry>, k: nat, t: nat)
    requires HistoryInv(h, members)
    requires Settled(h, a, j, s, members) && j <= |a|
    requires Settled(h, b, k, t, members) && k <= |b|
    ensures Agree(a, b, Min(j, k))
  {
    hide HistoryInv, Settled, Chosen;
    if j > 0 && k > 0 {
      var t1, i1 := SettledBy(h, a, j, s, members);
      var t2, i2 := SettledBy(h, b, k, t, members);
      ChosenAgree(h, members, t1, i1, t2, i2);
      AgreeLess(a, h.reigns[t1].log, j, Min(j, k));
      AgreeLess(b, h.reigns[t2].log, k, Min(j, k));
      AgreeLess(h.reigns[t1].log, h.reigns[t2].log, Min(i1, i2), Min(j, k));
    }
  }
}
