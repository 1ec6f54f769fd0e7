/** The commit scan of a leader computes an order statistic: the largest index that a quorum of the
    members, the leader included, is known to hold. */
module CommitScan {
  import opened RaftTypes
  import opened NodeSpec
  import opened History
  import opened Persistence
  import opened Replication

  // ---- The k-th largest of a sequence, by sorting -------------------------------------------------

  function Insert(sorted: seq<nat>, x: nat): seq<nat> {
    if sorted == [] || x >= sorted[0] then [x] + sorted else [sorted[0]] + Insert(sorted[1..], x)
  }

  function SortedDown(values: seq<nat>): seq<nat> {
    if values == [] then [] else Insert(SortedDown(values[..|values| - 1]), values[|values| - 1])
  }

  predicate Descending(values: seq<nat>) {
    forall i, j | 0 <= i < j < |values| :: values[i] >= values[j]
  }

  lemma {:induction false} InsertSame(sorted: seq<nat>, x: nat)
    ensures multiset(Insert(sorted, x)) == multiset(sorted) + multiset{x}
  {
    if sorted != [] && x < sorted[0] {
      InsertSame(sorted[1..], x);
      assert sorted == [sorted[0]] + sorted[1..];
    }
  }

  lemma ConsDescending(x: nat, rest: seq<nat>)
    requires Descending(rest) && forall y | y in rest :: y <= x
    ensures Descending([x] + rest)
  {
    var all := [x] + rest;
    forall i, j | 0 <= i < j < |all|
      ensures all[i] >= all[j]
    {
      assert all[j] == rest[j - 1] && rest[j - 1] in rest;
      if i > 0 {
        assert all[i] == rest[i - 1];
      }
    }
  }

  lemma {:induction false} InsertDescending(sorted: seq<nat>, x: nat)
    requires Descending(sorted)
    ensures Descending(Insert(sorted, x))
  {
    if sorted == [] || x >= sorted[0] {
      ConsDescending(x, sorted);
    } else {
      InsertDescending(sorted[1..], x);
      InsertSame(sorted[1..], x);
      var rest := Insert(sorted[1..], x);
      forall y | y in rest
        ensures y <= sorted[0]
      {
        assert y in multiset(rest);
      }
      ConsDescending(sorted[0], rest);
    }
  }

  /** The reference definition sorts: descending, and a permutation of the values. */
  lemma {:induction false} SortedDownOk(values: seq<nat>)
    ensures Descending(SortedDown(values)) && multiset(SortedDown(values)) == multiset(values)
    ensures |SortedDown(values)| == |values|
  {
    if values != [] {
      var front := values[..|values| - 1];
      SortedDownOk(front);
      InsertSame(SortedDown(front), values[|values| - 1]);
      InsertDescending(SortedDown(front), values[|values| - 1]);
      assert values == front + [values[|values| - 1]];
    }
    assert |SortedDown(values)| == |multiset(SortedDown(values))| == |multiset(values)| == |values|;
  }

  function CountReaching(values: seq<nat>, x: nat): nat {
    if values == [] then 0
    else CountReaching(values[..|values| - 1], x) + if values[|values| - 1] >= x then 1 else 0
  }

  lemma {:induction false} CountFront(values: seq<nat>, x: nat)
    requires values != []
    ensures CountReaching(values, x) == CountReaching(values[1..], x) + if values[0] >= x then 1 else 0
  {
    if |values| > 1 {
      var front := values[..|values| - 1];
      CountFront(front, x);
      assert front[1..] == values[1..][..|values| - 2];
    }
  }

  lemma {:induction false} CountInsert(sorted: seq<nat>, y: nat, x: nat)
    ensures CountReaching(Insert(sorted, y), x) == CountReaching(sorted, x) + if y >= x then 1 else 0
  {
    CountFront(Insert(sorted, y), x);
    if sorted == [] || y >= sorted[0] {
      assert Insert(sorted, y)[1..] == sorted;
    } else {
      assert Insert(sorted, y)[1..] == Insert(sorted[1..], y);
      CountInsert(sorted[1..], y, x);
      CountFront(sorted, x);
    }
  }

  lemma {:induction false} CountSorted(values: seq<nat>, x: nat)
    ensures CountReaching(SortedDown(values), x) == CountReaching(values, x)
  {
    if values != [] {
      CountSorted(values[..|values| - 1], x);
      CountInsert(SortedDown(values[..|values| - 1]), values[|values| - 1], x);
    }
  }

  /** In a descending sequence at least k values reach x exactly when the k-th does. */
  lemma {:induction false} CountDescending(sorted: seq<nat>, k: nat, x: nat)
    requires Descending(sorted) && 0 < k <= |sorted|
    ensures CountReaching(sorted, x) >= k <==> sorted[k - 1] >= x
    ensures CountReaching(sorted, x) <= |sorted|
  {
    var front := sorted[..|sorted| - 1];
    if k < |sorted| {
      CountDescending(front, k, x);
      if front[k - 1] < x {
        assert sorted[|sorted| - 1] <= sorted[k - 1];
      }
    } else if k > 1 {
      CountDescending(front, k - 1, x);
      assert sorted[k - 2] >= sorted[k - 1];
    }
  }

  // ---- The scan -----------------------------------------------------------------------------------

  function Reports(matched: map<NodeId, nat>, peers: seq<NodeId>): seq<nat> {
    if peers == [] then []
    else Reports(matched, peers[..|peers| - 1]) + [Lookup(matched, peers[|peers| - 1])]
  }

  /** The last index each member is known to hold, the leader's own included. */
  function Views(s: Node): seq<nat> {
    [|s.log|] + Reports(s.matched, s.peers)
  }

  /** The largest index held by a quorum: the quorum-th largest view. */
  function QuorumIndex(s: Node): nat {
    var sorted := SortedDown(Views(s));
    if s.Quorum() <= |sorted| then sorted[s.Quorum() - 1] else 0
  }

  lemma {:induction false} CountReports(matched: map<NodeId, nat>, peers: seq<NodeId>, x: nat)
    ensures CountReaching(Reports(matched, peers), x) == CountAtLeast(matched, peers, x)
    ensures |Reports(matched, peers)| == |peers|
    ensures forall r | r in Reports(matched, peers) :: exists p | p in peers :: r == Lookup(matched, p)
  {
    if peers != [] {
      var front, last := peers[..|peers| - 1], peers[|peers| - 1];
      CountReports(matched, front, x);
      assert Reports(matched, peers)[..|peers| - 1] == Reports(matched, front);
      assert last in peers;
    }
  }

  lemma {:induction false} DistinctCount(peers: seq<NodeId>)
    requires Distinct(peers)
    ensures |Elements(peers)| == |peers|
  {
    if peers != [] {
      var front, last := peers[..|peers| - 1], peers[|peers| - 1];
      DistinctCount(front);
      assert Elements(peers) == Elements(front) + {last};
      assert last !in Elements(front);
    }
  }

  lemma {:induction false} QuorumFits(s: Node)
    requires ValidConfig(s.id, s.peers)
    ensures 0 < s.Quorum() <= |Views(s)|
  {
    DistinctCount(s.peers);
    assert s.id !in Elements(s.peers);
    CountReports(s.matched, s.peers, 0);
  }

  /** An index inside the leader's log is on a quorum exactly when the quorum-th largest view
      reaches it. */
  lemma {:induction false} ReplicatedByRank(s: Node, x: nat)
    requires ValidConfig(s.id, s.peers) && x <= |s.log|
    ensures Replicated(s, x) <==> QuorumIndex(s) >= x
  {
    hide SortedDown, CountAtLeast, CountReaching, Reports, Descending, ValidConfig;
    QuorumFits(s);
    SortedDownOk(Views(s));
    CountDescending(SortedDown(Views(s)), s.Quorum(), x);
    CountSorted(Views(s), x);
    CountFront(Views(s), x);
    assert Views(s)[1..] == Reports(s.matched, s.peers);
    CountReports(s.matched, s.peers, x);
  }

  lemma {:induction false} QuorumIndexReported(s: Node)
    requires ValidConfig(s.id, s.peers)
    ensures QuorumIndex(s) in Views(s)
  {
    hide SortedDown, Reports, Descending, ValidConfig;
    var sorted := SortedDown(Views(s));
    QuorumFits(s);
    SortedDownOk(Views(s));
    assert sorted[s.Quorum() - 1] in multiset(sorted);
  }

  lemma {:induction false} ScanBelow(s: Node, candidate: nat)
    requires candidate <= |s.log|
    requires forall x | s.commit < x <= candidate :: TermAt(s.log, x) != s.term
    ensures CommitTarget(s, candidate) == s.commit
  {
    if candidate > s.commit {
      ScanBelow(s, candidate - 1);
    }
  }

  lemma {:induction false} ScanFrom(s: Node, v: nat, candidate: nat)
    requires v <= candidate <= |s.log| && Ascending(s.log) && TermsAtMost(s.log, s.term) && 0 < s.term
    requires forall x | 0 <= x <= |s.log| :: Replicated(s, x) <==> v >= x
    ensures CommitTarget(s, candidate) == if v > s.commit && TermAt(s.log, v) == s.term then v else s.commit
  {
    if candidate > s.commit {
      if candidate > v {
        ScanFrom(s, v, candidate - 1);
      } else if TermAt(s.log, v) != s.term {
        ScanBelow(s, candidate - 1);
      }
    }
  }

  /** The commit scan equals its specification: the commit index moves to the quorum-th largest view
      if that exceeds it and holds an entry of the current term, and stays put otherwise. */
  lemma {:induction false} ScanIsOrderStatistic(s: Node)
    requires WellFormed(s) && s.role == Leader && 0 < s.term
    requires Ascending(s.log) && TermsAtMost(s.log, s.term)
    ensures var v := QuorumIndex(s);
            && v <= |s.log|
            && AdvanceCommit(s).commit == if v > s.commit && TermAt(s.log, v) == s.term then v else s.commit
  {
    hide CommitTarget, SortedDown, Replicated, Reports, QuorumIndex, Published;
    var v := QuorumIndex(s);
    QuorumIndexReported(s);
    CountReports(s.matched, s.peers, 0);
    assert v <= |s.log| by {
      if v in Reports(s.matched, s.peers) {
        var p :| p in s.peers && v == Lookup(s.matched, p);
        assert Tracks(s, p);
      }
    }
    forall x | 0 <= x <= |s.log|
      ensures Replicated(s, x) <==> v >= x
    {
      ReplicatedByRank(s, x);
    }
    ScanFrom(s, v, |s.log|);
  }

  // ---- The scan and majorities --------------------------------------------------------------------

  /** A quorum is a majority: that many members are needed and that many are enough. */
  lemma QuorumIsMajority(s: Node, q: set<NodeId>)
    requires q <= s.Members()
    ensures |q| >= s.Quorum() <==> Majority(q, s.Members())
  {
  }

  /** The members the leader knows to hold the first k entries of its log. */
  ghost function Holding(s: Node, k: nat): set<NodeId> {
    set n | n in s.Members() && if n == s.id then k <= |s.log| else Lookup(s.matched, n) >= k
  }

  /** Index k holds an entry of the current term, on a majority of the members. */
  ghost predicate OnMajority(s: Node, k: nat) {
    k <= |s.log| && TermAt(s.log, k) == s.term && Majority(Holding(s, k), s.Members())
  }

  lemma {:induction false} ReplicatedIsMajority(s: Node, k: nat)
    requires ValidConfig(s.id, s.peers) && k <= |s.log|
    ensures Replicated(s, k) <==> Majority(Holding(s, k), s.Members())
  {
    hide CountAtLeast;
    var holders := set p | p in s.peers && Lookup(s.matched, p) >= k;
    CountIsCardinality(s.matched, s.peers, k);
    assert s.id !in holders;
    assert Holding(s, k) == holders + {s.id};
    QuorumIsMajority(s, Holding(s, k));
  }

  /** k is where a commit index that was `from` belongs: at the largest index of the current term on a
      majority, if there is one above it. */
  ghost predicate LargestOnMajority(s: Node, from: nat, k: nat) {
    && k >= from
    && (k > from ==> OnMajority(s, k))
    && forall x | k < x <= |s.log| :: !OnMajority(s, x)
  }

  lemma {:induction false} ScanFindsLargest(s: Node, candidate: nat)
    requires ValidConfig(s.id, s.peers) && candidate <= |s.log|
    ensures var k := CommitTarget(s, candidate);
            && k >= s.commit && (k > s.commit ==> k <= candidate && OnMajority(s, k))
            && forall x | k < x <= candidate :: !OnMajority(s, x)
  {
    hide Replicated, Holding, ValidConfig;
    if candidate > s.commit {
      ReplicatedIsMajority(s, candidate);
      if TermAt(s.log, candidate) != s.term || !Replicated(s, candidate) {
        ScanFindsLargest(s, candidate - 1);
      }
    }
  }

  /** The scan raises the commit index to the largest index of the current term on a majority. */
  lemma {:induction false} AdvanceIsLargest(s: Node)
    requires ValidConfig(s.id, s.peers)
    ensures LargestOnMajority(s, s.commit, AdvanceCommit(s).commit)
  {
    hide CommitTarget, OnMajority, ValidConfig, NewlyPublished;
    ScanFindsLargest(s, |s.log|);
  }

  // ---- The scan and the calls of a node -----------------------------------------------------------

  /** Everything the scan looks at is the same. */
  predicate SameScan(s: Node, s': Node) {
    SameIdentity(s, s') && s'.log == s.log && s'.term == s.term && s'.matched == s.matched
  }

  /** The scan has nothing left to do. */
  predicate Idle(s: Node) {
    s.role == Leader ==> CommitTarget(s, |s.log|) == s.commit
  }

  predicate OnQuorum(s: Node, k: nat) {
    k <= |s.log| && TermAt(s.log, k) == s.term && Replicated(s, k)
  }

  /** A leader that comes out of a step has nothing left to commit, and what the step committed was an
      entry of its term on a quorum. */
  predicate Scanned(s: Node, s': Node) {
    s'.role == Leader ==>
      Idle(s') && (s'.commit == s.commit || (s'.commit > s.commit && OnQuorum(s', s'.commit)))
  }

  lemma ReplicatedSame(s: Node, s': Node, k: nat)
    requires SameScan(s, s')
    ensures Replicated(s', k) == Replicated(s, k)
  {
    assert s'.Members() == s.Members();
  }

  /** Scanning again from the index found finds nothing new. */
  lemma {:induction false} ScanSettles(s: Node, s': Node, candidate: nat)
    requires SameScan(s, s') && candidate <= |s.log|
    requires s'.commit == s.commit || s'.commit == CommitTarget(s, candidate)
    ensures CommitTarget(s', candidate) == CommitTarget(s, candidate)
  {
    hide Replicated;
    if candidate > s.commit {
      ReplicatedSame(s, s', candidate);
      if TermAt(s.log, candidate) != s.term || !Replicated(s, candidate) {
        ScanSettles(s, s', candidate - 1);
      }
    }
  }

  lemma {:induction false} AdvanceScanned(s: Node)
    requires s.role == Leader
    ensures Scanned(s, AdvanceCommit(s)) && AdvanceCommit(s).role == Leader && SameScan(s, AdvanceCommit(s))
  {
    hide CommitTarget, Replicated;
    AdvanceQuiet(s);
    CommitTargetHolds(s, |s.log|);
    ScanSettles(s, AdvanceCommit(s), |s.log|);
    ReplicatedSame(s, AdvanceCommit(s), AdvanceCommit(s).commit);
  }

  /** Nothing the scan looks at changed since. */
  lemma {:induction false} ScannedSame(s: Node, s1: Node, s2: Node)
    requires Scanned(s, s1) && SameScan(s1, s2) && s2.commit == s1.commit && s2.role == s1.role
    ensures Scanned(s, s2)
  {
    hide CommitTarget, Replicated;
    ScanSettles(s1, s2, |s1.log|);
    ReplicatedSame(s1, s2, s1.commit);
  }

  /** A scan followed by a broadcast, as at the end of an election, a proposal or an acknowledgement. */
  lemma {:induction false} AdvanceBroadcastScanned(s: Node)
    requires s.role == Leader
    ensures Scanned(s, Broadcast(AdvanceCommit(s)))
  {
    hide Scanned, AdvanceCommit, BroadcastTo;
    AdvanceScanned(s);
    BroadcastQuiet(AdvanceCommit(s), AdvanceCommit(s).peers);
    ScannedSame(s, AdvanceCommit(s), Broadcast(AdvanceCommit(s)));
  }

  lemma {:induction false} LeaderScanned(s: Node)
    ensures Scanned(s, BecomeLeader(s))
  {
    hide AdvanceCommit, BroadcastTo, CommitTarget;
    AdvanceBroadcastScanned(Crowned(s));
  }

  /** Only a leader that refuses a replication request is still a leader after it. */
  lemma {:induction false} RequestScanned(s: Node, from: NodeId, req: Rpc)
    requires req.AppendRequest? && Idle(s)
    ensures Scanned(s, HandleAppendRequest(s, from, req))
  {
    hide Compare, ConflictStart, CommitTarget, Replicated, EntriesFit, NewlyPublished;
    if Addressed(s, from, req) {
      assert Following(s, req.leader).role == Follower;
    } else {
      ScannedSame(s, s, HandleAppendRequest(s, from, req));
    }
  }

  lemma {:induction false} ResponseScanned(s: Node, from: NodeId, resp: Rpc)
    requires resp.AppendResponse? && Idle(s)
    ensures Scanned(s, HandleAppendResponse(s, from, resp))
  {
    hide AdvanceCommit, BroadcastTo, CommitTarget, Replicated, ResumeAt;
    var s' := HandleAppendResponse(s, from, resp);
    if s.role != Leader || resp.term != s.term {
    } else if resp.success && resp.matchIndex <= |s.log| {
      var s1 := s.(matched := s.matched[from := Max(Lookup(s.matched, from), resp.matchIndex)],
                   next := s.next[from := Max(Lookup(s.next, from), resp.matchIndex + 1)]);
      AdvanceScanned(s1);
      AdvanceQuiet(s1);
      AdvanceBroadcastScanned(s1);
      ScannedSame(s1, AdvanceCommit(s1), SendAppend(AdvanceCommit(s1), from));
    } else {
      ScannedSame(s, s, s');
    }
  }

  lemma {:induction false} ReceiveScanned(s: Node, m: Message)
    requires Idle(s)
    ensures Scanned(s, Receive(s, m))
  {
    hide HandleAppendRequest, HandleAppendResponse, BecomeLeader, CommitTarget, Replicated, AsCurrent;
    var s1 := AdoptTerm(s, m.rpc.term);
    assert Idle(s1) && s1.commit == s.commit;
    match m.rpc
    case VoteRequest(_, _, _, _) => ScannedSame(s, s1, HandleVoteRequest(s1, m.from, m.rpc));
    case VoteResponse(_, _) => LeaderScanned(s1.(votes := s1.votes + {m.from}));
    case AppendRequest(_, _, _, _, _, _, _) => RequestScanned(s1, m.from, m.rpc);
    case AppendResponse(_, _, _, _, _, _) => ResponseScanned(s1, m.from, m.rpc);
  }

  /** Every call scans whenever it has to: a leader that comes out of a call, whatever the call and
      whatever the message, has nothing left to commit. */
  lemma {:induction false} CallScanned(s: Node, call: Call)
    requires Idle(s)
    ensures Scanned(s, Perform(s, call))
  {
    hide Receive, BecomeLeader, AdvanceCommit, BroadcastTo, CommitTarget, Replicated;
    match call
    case OnTick =>
      LeaderScanned(Candidacy(s));
      BroadcastQuiet(s, s.peers);
      ScannedSame(s, s, Broadcast(s));
    case OnMessage(m) => ReceiveScanned(s, m);
    case OnPropose(command) =>
      if s.role == Leader {
        AdvanceBroadcastScanned(Appended(s, command));
      }
  }

  /** What a call commits on a leader, in terms of the state the call ends in: the quorum-th largest
      view, if that is new and of the current term. */
  lemma {:induction false} CommittedByRank(s: Node, s': Node)
    requires Scanned(s, s') && WellFormed(s') && s'.role == Leader && 0 < s'.term
    requires Ascending(s'.log) && TermsAtMost(s'.log, s'.term)
    ensures var v := QuorumIndex(s');
            && v <= |s'.log|
            && s'.commit == if v > s.commit && TermAt(s'.log, v) == s'.term then v else s.commit
  {
    hide CommitTarget, Replicated, QuorumIndex, Published;
    ScanIsOrderStatistic(s');
    if s'.commit != s.commit {
      ReplicatedByRank(s', s'.commit);
    }
  }

  lemma {:induction false} CommittedByMajority(s: Node, s': Node)
    requires Scanned(s, s') && s'.role == Leader && ValidConfig(s'.id, s'.peers)
    ensures LargestOnMajority(s', s.commit, s'.commit)
  {
    hide CommitTarget, Replicated, Holding, ValidConfig;
    ScanFindsLargest(s', |s'.log|);
    if s'.commit != s.commit {
      ReplicatedIsMajority(s', s'.commit);
    }
  }
}
