/** The history a run leaves behind, and the invariant that ties every node, every message and the
    history together. History only grows, and each call lets one node extend it. Nodes and messages
    are related to the history alone, never to each other. */
module History {
  import opened RaftTypes
  import opened NodeSpec
  import opened Cluster

  datatype Slot = Slot(term: nat, node: NodeId)

  /** One term's leadership: who won, whose votes elected it, its log when elected and its log now. */
  datatype Reign = Reign(leader: NodeId, voters: set<NodeId>, start: seq<LogEntry>, log: seq<LogEntry>)

  datatype History = History(
    reigns: map<nat, Reign>,
    votes: map<Slot, NodeId>,          // whom a node voted for in a term
    bids: map<Slot, seq<LogEntry>>,    // a candidate's log when it stood for election
    ballots: map<Slot, seq<LogEntry>>, // a voter's log when it voted in a still open election
    acks: map<Slot, nat>)              // the longest prefix of a term's log a node acknowledged

  // ---- Logs and terms -----------------------------------------------------------------------

  /** Every prefix ending in an entry of term t is a prefix of the log of term t's leader. */
  ghost predicate Traced(log: seq<LogEntry>, h: History) {
    forall k | 0 <= k < |log| ::
      log[k].term in h.reigns && Agree(log, h.reigns[log[k].term].log, k + 1)
  }

  ghost predicate Majority(q: set<NodeId>, members: set<NodeId>) {
    q <= members && 2 * |q| > |members|
  }

  /** The members that acknowledged index i of term t's log. */
  ghost function Holders(h: History, t: nat, i: nat, members: set<NodeId>): set<NodeId> {
    set n | n in members && Slot(t, n) in h.acks && h.acks[Slot(t, n)] >= i
  }

  /** Index i of term t's log holds an entry of term t acknowledged by a majority. */
  ghost predicate Chosen(h: History, t: nat, i: nat, members: set<NodeId>) {
    && t in h.reigns
    && 0 < i <= |h.reigns[t].log|
    && h.reigns[t].log[i - 1].term == t
    && Majority(Holders(h, t, i, members), members)
  }

  /** The first k entries of the log are settled by a choice made in some term up to `bound`. */
  ghost predicate Settled(h: History, log: seq<LogEntry>, k: nat, bound: nat, members: set<NodeId>) {
    k == 0 ||
    exists t: nat, i: nat :: t <= bound && Chosen(h, t, i, members) && k <= i && Agree(log, h.reigns[t].log, k)
  }

  /** Every leader elected after term t and before term `end` started with the first m entries of
      term t's log. */
  ghost predicate Carried(h: History, t: nat, end: nat, m: nat)
    requires t in h.reigns
  {
    forall u | u in h.reigns && t < u < end :: Agree(h.reigns[t].log, h.reigns[u].start, m)
  }

  /** What a node acknowledged it still holds, as long as later leaders carried it. */
  ghost predicate Retains(h: History, a: Slot, log: seq<LogEntry>, end: nat)
    requires a in h.acks && a.term in h.reigns
  {
    forall m | 0 <= m <= h.acks[a] && Carried(h, a.term, end, m) :: Agree(h.reigns[a.term].log, log, m)
  }

  // ---- The history itself -------------------------------------------------------------------

  /** The vote of v in term t went to the winner, whose log was at least as current as v's. */
  ghost predicate Elected(h: History, t: nat, v: NodeId)
    requires t in h.reigns
  {
    && Slot(t, v) in h.votes && h.votes[Slot(t, v)] == h.reigns[t].leader
    && Slot(t, v) in h.ballots
    && AsCurrent(LastTerm(h.reigns[t].start), |h.reigns[t].start|, h.ballots[Slot(t, v)])
  }

  ghost predicate ReignOk(h: History, t: nat, members: set<NodeId>)
    requires t in h.reigns
  {
    var r := h.reigns[t];
    && 0 < t
    && r.leader in members
    && Majority(r.voters, members)
    && (forall v | v in r.voters :: Elected(h, t, v))
    && |r.start| < |r.log|
    && Agree(r.start, r.log, |r.start|)
    && (forall k | 0 <= k < |r.start| :: r.start[k].term < t)
    && (forall k | |r.start| <= k < |r.log| :: r.log[k].term == t)
    && Ascending(r.log)
    && Traced(r.log, h)
  }

  /** Every vote went to a node that stood for election, and unless the term was already decided
      there is a ballot showing that node's log to be at least as current as the voter's. */
  ghost predicate VotesOk(h: History) {
    forall k | k in h.votes ::
      var bid := Slot(k.term, h.votes[k]);
      && bid in h.bids
      && (k.term in h.reigns ||
          (k in h.ballots && AsCurrent(LastTerm(h.bids[bid]), |h.bids[bid]|, h.ballots[k])))
  }

  ghost predicate BallotsOk(h: History) {
    forall b | b in h.ballots :: Traced(h.ballots[b], h) && Ascending(h.ballots[b])
  }

  ghost predicate AcksOk(h: History, members: set<NodeId>) {
    forall a | a in h.acks ::
      a.node in members && a.term in h.reigns && h.acks[a] <= |h.reigns[a.term].log|
  }

  /** A ballot still holds what the voter acknowledged in earlier terms. */
  ghost predicate BallotsRetain(h: History, members: set<NodeId>)
    requires AcksOk(h, members)
  {
    forall b, a | b in h.ballots && a in h.acks && a.node == b.node && a.term < b.term ::
      Retains(h, a, h.ballots[b], b.term)
  }

  ghost predicate HistoryInv(h: History, members: set<NodeId>) {
    && (forall t | t in h.reigns :: ReignOk(h, t, members))
    && VotesOk(h)
    && BallotsOk(h)
    && AcksOk(h, members)
    && BallotsRetain(h, members)
  }

  // ---- Nodes --------------------------------------------------------------------------------

  ghost predicate LocalOk(s: Node, members: set<NodeId>) {
    WellFormed(s) && s.Members() == members
  }

  ghost predicate LogOk(s: Node, h: History) {
    Traced(s.log, h) && Ascending(s.log) && TermsAtMost(s.log, s.term)
  }

  /** Everything the history says about this node lies in its past. */
  ghost predicate PastOk(s: Node, h: History) {
    && (forall k | k in h.votes && k.node == s.id :: k.term <= s.term)
    && (forall k | k in h.bids && k.node == s.id :: k.term <= s.term)
    && (forall k | k in h.ballots && k.node == s.id :: k.term <= s.term)
    && (forall t | t in h.reigns && h.reigns[t].leader == s.id ::
          t <= s.term && (t == s.term ==> s.role != Candidate))
  }

  ghost predicate VoteOk(s: Node, h: History) {
    && (s.vote.Some? ==> Slot(s.term, s.id) in h.votes && h.votes[Slot(s.term, s.id)] == s.vote.value)
    && (s.vote.None? ==> Slot(s.term, s.id) !in h.votes && Slot(s.term, s.id) !in h.ballots)
    && (s.leader.Some? ==> s.term in h.reigns && h.reigns[s.term].leader == s.leader.value)
  }

  ghost predicate CandidateOk(s: Node, h: History) {
    s.role == Candidate ==>
      && 0 < s.term
      && s.vote == Some(s.id)
      && Slot(s.term, s.id) in h.bids && h.bids[Slot(s.term, s.id)] == s.log
      && (forall v | v in s.votes :: Slot(s.term, v) in h.votes && h.votes[Slot(s.term, v)] == s.id)
  }

  ghost predicate LeaderOk(s: Node, h: History) {
    s.role == Leader ==>
      && s.vote == Some(s.id) && s.leader == Some(s.id)
      && s.term in h.reigns && h.reigns[s.term].leader == s.id && h.reigns[s.term].log == s.log
      && Slot(s.term, s.id) in h.acks && h.acks[Slot(s.term, s.id)] == |s.log|
      && (forall p | p in s.peers && p in s.matched && 0 < s.matched[p] ::
            Slot(s.term, p) in h.acks && s.matched[p] <= h.acks[Slot(s.term, p)])
  }

  ghost predicate RetainsOk(s: Node, h: History) {
    forall a | a in h.acks && a.node == s.id ::
      a.term in h.reigns && a.term <= s.term && Retains(h, a, s.log, s.term + 1)
  }

  ghost predicate NodeInv(s: Node, h: History, members: set<NodeId>) {
    && LocalOk(s, members)
    && LogOk(s, h)
    && PastOk(s, h)
    && VoteOk(s, h)
    && CandidateOk(s, h)
    && LeaderOk(s, h)
    && RetainsOk(s, h)
    && Settled(h, s.log, s.commit, s.term, members)
  }

  // ---- Messages -----------------------------------------------------------------------------

  /** A replication request is a slice of its term's log that reaches past everything it commits. */
  ghost predicate RequestOk(m: Message, h: History, members: set<NodeId>)
    requires m.rpc.AppendRequest?
  {
    var q := m.rpc;
    && q.leader == m.from
    && q.term in h.reigns && h.reigns[q.term].leader == m.from
    && var log := h.reigns[q.term].log;
    && q.prevIndex + |q.entries| <= |log|
    && q.entries == log[q.prevIndex..q.prevIndex + |q.entries|]
    && q.prevTerm == TermAt(log, q.prevIndex)
    && q.leaderCommit <= q.prevIndex + |q.entries|
    && Settled(h, log, q.leaderCommit, q.term, members)
  }

  ghost predicate MessageInv(m: Message, h: History, members: set<NodeId>) {
    match m.rpc
    case VoteRequest(t, candidate, lastIndex, lastTerm) =>
      && candidate == m.from
      && Slot(t, m.from) in h.bids
      && lastIndex == |h.bids[Slot(t, m.from)]| && lastTerm == LastTerm(h.bids[Slot(t, m.from)])
    case VoteResponse(t, granted) =>
      granted ==> Slot(t, m.from) in h.votes && h.votes[Slot(t, m.from)] == m.to
    case AppendRequest(_, _, _, _, _, _, _) => RequestOk(m, h, members)
    case AppendResponse(t, success, matchIndex, _, _, _) =>
      success && 0 < matchIndex ==>
        t in h.reigns && Slot(t, m.from) in h.acks && matchIndex <= h.acks[Slot(t, m.from)]
  }

  // ---- The whole cluster --------------------------------------------------------------------

  ghost predicate ClusterInv(c: Cluster, h: History) {
    && c.nodes.Keys == c.members
    && HistoryInv(h, c.members)
    && (forall n | n in c.nodes :: c.nodes[n].id == n && NodeInv(c.nodes[n], h, c.members))
    && (forall n | n in c.nodes :: c.nodes[n].outbox == [] && |c.nodes[n].saves| == 1)
    && (forall m | m in c.net :: MessageInv(m, h, c.members))
  }

  // ---- Growth -------------------------------------------------------------------------------

  ghost predicate ReignGrows(r: Reign, r': Reign) {
    r'.leader == r.leader && r'.voters == r.voters && r'.start == r.start && Agree(r.log, r'.log, |r.log|)
  }

  /** Nothing recorded is ever lost or changed; logs and acknowledgements only get longer. */
  ghost predicate Grows(h: History, h': History) {
    && (forall t | t in h.reigns :: t in h'.reigns && ReignGrows(h.reigns[t], h'.reigns[t]))
    && (forall k | k in h.votes :: k in h'.votes && h'.votes[k] == h.votes[k])
    && (forall k | k in h.bids :: k in h'.bids && h'.bids[k] == h.bids[k])
    && (forall k | k in h.ballots :: k in h'.ballots && h'.ballots[k] == h.ballots[k])
    && (forall k | k in h.acks :: k in h'.acks && h'.acks[k] >= h.acks[k])
  }

  /** Only node n acted. */
  ghost predicate OnlyBy(h: History, h': History, n: NodeId) {
    && (forall t | t in h'.reigns && h'.reigns[t].leader != n :: t in h.reigns && h'.reigns[t] == h.reigns[t])
    && (forall k | k in h'.votes && k.node != n :: k in h.votes)
    && (forall k | k in h'.bids && k.node != n :: k in h.bids)
    && (forall k | k in h'.ballots && k.node != n :: k in h.ballots)
    && (forall k | k in h'.acks && k.node != n :: k in h.acks && h'.acks[k] == h.acks[k])
  }

  ghost predicate Extends(h: History, h': History, n: NodeId) {
    Grows(h, h') && OnlyBy(h, h', n)
  }
}
