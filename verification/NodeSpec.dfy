/** One Raft node as a value, and every public call of `RaftNode` as a function from the state
    before the call to the state after it (src/raft/raft_node.cpp). Time is abstracted: `Tick` is a
    tick whose timer has expired. */
module NodeSpec {
  import opened RaftTypes

  /** The fields of `RaftNode`. `published` is every committed entry handed to the consumer or
      waiting for it since the process started, and `saves` every hard state written to storage,
      the last one being what storage holds. */
  datatype Node = Node(
    id: NodeId, peers: seq<NodeId>,
    role: Role, term: nat, vote: Option<NodeId>, leader: Option<NodeId>,
    log: seq<LogEntry>, commit: nat, applied: nat,
    votes: set<NodeId>, next: map<NodeId, nat>, matched: map<NodeId, nat>, requestId: map<NodeId, nat>,
    outbox: seq<Message>, published: seq<CommittedEntry>, saves: seq<HardState>)
  {
    function Members(): set<NodeId> {
      {id} + Elements(peers)
    }

    function Quorum(): nat {
      |Members()| / 2 + 1
    }

    predicate IsPeer(n: NodeId) {
      n != id && n in Members()
    }

    function Hard(): HardState {
      HardState(term, vote, log)
    }

    function Persist(): Node {
      this.(saves := saves + [Hard()])
    }

    function Send(to: NodeId, rpc: Rpc): Node {
      this.(outbox := outbox + [Message(id, to, rpc)])
    }
  }

  /** The membership check of the constructor. */
  predicate ValidConfig(id: NodeId, peers: seq<NodeId>) {
    Distinct(peers) && id !in peers
  }

  /** What the constructor demands of stored state before it starts from it. */
  predicate Recoverable(id: NodeId, peers: seq<NodeId>, hard: HardState) {
    && (hard.vote.Some? ==> hard.vote.value in {id} + Elements(peers))
    && Ascending(hard.log)
    && TermsAtMost(hard.log, hard.term)
  }

  /** The node the constructor builds from what storage holds. */
  function Recovered(id: NodeId, peers: seq<NodeId>, hard: HardState): Node {
    Node(id, peers, Follower, hard.term, hard.vote, None, hard.log, 0, 0,
         {}, map[], map[], map[], [], [], [hard])
  }

  // ---- Role changes -------------------------------------------------------------------------

  function BecomeFollower(s: Node, term: nat, leader: Option<NodeId>): Node {
    var changed := term > s.term;
    var s1 := s.(term := if changed then term else s.term,
                 vote := if changed then None else s.vote,
                 role := Follower, leader := leader,
                 votes := {}, next := map[], matched := map[], requestId := map[]);
    if changed then s1.Persist() else s1
  }

  function Candidacy(s: Node): Node {
    s.(role := Candidate, leader := None, term := s.term + 1, vote := Some(s.id), votes := {s.id}).Persist()
  }

  function VoteRequests(s: Node, peers: seq<NodeId>): seq<Message> {
    if peers == [] then []
    else VoteRequests(s, peers[..|peers| - 1]) +
         [Message(s.id, peers[|peers| - 1], VoteRequest(s.term, s.id, |s.log|, LastTerm(s.log)))]
  }

  function StartElection(s: Node): Node {
    var s1 := Candidacy(s);
    if |s1.votes| >= s1.Quorum() then BecomeLeader(s1)
    else s1.(outbox := s1.outbox + VoteRequests(s1, s1.peers))
  }

  function Assign(m: map<NodeId, nat>, keys: seq<NodeId>, v: nat): map<NodeId, nat> {
    if keys == [] then m else Assign(m, keys[..|keys| - 1], v)[keys[|keys| - 1] := v]
  }

  lemma {:induction false} AssignAll(m: map<NodeId, nat>, keys: seq<NodeId>, v: nat)
    ensures forall k | k in keys :: k in Assign(m, keys, v) && Assign(m, keys, v)[k] == v
  {
    if keys != [] {
      AssignAll(m, keys[..|keys| - 1], v);
    }
  }

  /** A new leader tracks every peer from the end of its log, with nothing matched yet. */
  lemma {:induction false} CrownedTracks(s: Node)
    ensures forall p | p in s.peers :: Tracks(Crowned(s), p) && Crowned(s).matched[p] == 0
  {
    AssignAll(s.next, s.peers, |s.log| + 1);
    AssignAll(s.matched, s.peers, 0);
    AssignAll(s.requestId, s.peers, 0);
  }

  /** A new leader's book-keeping and its no-op entry, saved but not yet announced. */
  function Crowned(s: Node): Node {
    s.(role := Leader, leader := Some(s.id),
       next := Assign(s.next, s.peers, |s.log| + 1),
       matched := Assign(s.matched, s.peers, 0),
       requestId := Assign(s.requestId, s.peers, 0),
       log := s.log + [LogEntry(s.term, [], true)]).Persist()
  }

  function BecomeLeader(s: Node): Node {
    Broadcast(AdvanceCommit(Crowned(s)))
  }

  // ---- Replication --------------------------------------------------------------------------

  function Lookup(m: map<NodeId, nat>, key: NodeId): nat {
    if key in m then m[key] else 0
  }

  /** A leader's view of a peer stays inside its own log. */
  predicate Tracks(s: Node, peer: NodeId) {
    && peer in s.next && peer in s.matched && peer in s.requestId
    && s.matched[peer] + 1 <= s.next[peer] <= |s.log| + 1
  }

  /** The representation invariant of a node between calls and inside them. */
  predicate WellFormed(s: Node) {
    && ValidConfig(s.id, s.peers)
    && s.applied == s.commit <= |s.log|
    && s.published == Published(s.log, s.commit)
    && s.votes <= s.Members()
    && (s.vote.Some? ==> s.vote.value in s.Members())
    && s.saves != [] && s.saves[|s.saves| - 1] == s.Hard()
    && (s.role == Leader ==> forall p | p in s.peers :: Tracks(s, p))
  }

  function RequestFor(s: Node, peer: NodeId): Rpc
    requires Tracks(s, peer)
  {
    var prev := s.next[peer] - 1;
    AppendRequest(s.term, s.id, prev, TermAt(s.log, prev), s.log[prev..], s.commit, s.requestId[peer] + 1)
  }

  function SendAppend(s: Node, peer: NodeId): Node {
    if Tracks(s, peer) then
      s.(requestId := s.requestId[peer := s.requestId[peer] + 1]).Send(peer, RequestFor(s, peer))
    else s
  }

  function BroadcastTo(s: Node, peers: seq<NodeId>): Node {
    if peers == [] then s
    else SendAppend(BroadcastTo(s, peers[..|peers| - 1]), peers[|peers| - 1])
  }

  function Broadcast(s: Node): Node {
    BroadcastTo(s, s.peers)
  }

  function CountAtLeast(matched: map<NodeId, nat>, peers: seq<NodeId>, index: nat): nat {
    if peers == [] then 0
    else CountAtLeast(matched, peers[..|peers| - 1], index) +
         if Lookup(matched, peers[|peers| - 1]) >= index then 1 else 0
  }

  predicate Replicated(s: Node, index: nat) {
    1 + CountAtLeast(s.matched, s.peers, index) >= s.Quorum()
  }

  /** The first index at or below `candidate`, scanning down to the commit index, that holds an
      entry of the current term and sits on a quorum; the commit index if there is none. */
  function CommitTarget(s: Node, candidate: nat): nat
    requires candidate <= |s.log|
  {
    if candidate <= s.commit then s.commit
    else if TermAt(s.log, candidate) == s.term && Replicated(s, candidate) then candidate
    else CommitTarget(s, candidate - 1)
  }

  /** The records appended when the applied index moves up to k. */
  function NewlyPublished(log: seq<LogEntry>, applied: nat, k: nat): seq<CommittedEntry>
    requires k <= |log|
  {
    if k <= applied then []
    else NewlyPublished(log, applied, k - 1) +
         if log[k - 1].isNoOp then [] else [CommittedEntry(k, log[k - 1].term, log[k - 1].command)]
  }

  function CommitTo(s: Node, k: nat): Node
    requires k <= |s.log|
  {
    s.(commit := k, applied := Max(s.applied, k),
       published := s.published + NewlyPublished(s.log, s.applied, k))
  }

  function AdvanceCommit(s: Node): Node {
    var k := CommitTarget(s, |s.log|);
    if k > s.commit && k <= |s.log| then CommitTo(s, k) else s
  }

  // ---- Message handlers ---------------------------------------------------------------------

  function HandleVoteRequest(s: Node, from: NodeId, req: Rpc): Node
    requires req.VoteRequest?
  {
    if req.candidate != from || req.term < s.term then
      s.Send(from, VoteResponse(s.term, false))
    else
      var canVote := s.vote == None || s.vote == Some(req.candidate);
      var grant := canVote && AsCurrent(req.lastTerm, req.lastIndex, s.log);
      var s1 := if grant && s.vote != Some(req.candidate) then s.(vote := Some(req.candidate)).Persist() else s;
      s1.Send(from, VoteResponse(s1.term, grant))
  }

  function HandleVoteResponse(s: Node, from: NodeId, resp: Rpc): Node
    requires resp.VoteResponse?
  {
    if s.role != Candidate || resp.term != s.term || !resp.granted then s
    else
      var s1 := s.(votes := s.votes + {from});
      if |s1.votes| >= s1.Quorum() then BecomeLeader(s1) else s1
  }

  /** How far the stored log and the offered entries agree, and why the comparison stopped. */
  datatype Overlap =
    | Reached(count: nat)    // one of the two logs ended
    | Conflict(count: nat)   // different terms at offset count
    | Corrupt(count: nat)    // same term but different entries at offset count

  function Compare(log: seq<LogEntry>, prev: nat, entries: seq<LogEntry>, offset: nat): Overlap
    requires offset <= |entries|
    decreases |entries| - offset
  {
    if offset == |entries| || prev + offset >= |log| then Reached(offset)
    else if log[prev + offset].term != entries[offset].term then Conflict(offset)
    else if log[prev + offset] != entries[offset] then Corrupt(offset)
    else Compare(log, prev, entries, offset + 1)
  }

  /** The first index of the run of equal terms that ends at `index`. */
  function ConflictStart(log: seq<LogEntry>, index: nat): nat
    requires 0 < index <= |log|
  {
    if index > 1 && log[index - 2].term == log[index - 1].term then ConflictStart(log, index - 1)
    else index
  }

  function Reject(s: Node, from: NodeId, req: Rpc, conflictIndex: nat, conflictTerm: Option<nat>): Node
    requires req.AppendRequest?
  {
    s.Send(from, AppendResponse(s.term, false, 0, conflictIndex, conflictTerm, req.requestId))
  }

  /** Replace everything past the first n offered entries, and save if there is anything to add. */
  function Install(s: Node, req: Rpc, n: nat): Node
    requires req.AppendRequest? && n <= |req.entries| && req.prevIndex + n <= |s.log|
  {
    if n < |req.entries| then s.(log := s.log[..req.prevIndex + n] + req.entries[n..]).Persist() else s
  }

  /** Follow the leader's commit index as far as the whole log reaches, and acknowledge. */
  function Acknowledge(s: Node, from: NodeId, req: Rpc): Node
    requires req.AppendRequest?
  {
    var s1 := if req.leaderCommit > s.commit then CommitTo(s, Min(req.leaderCommit, |s.log|)) else s;
    var matchIndex := req.prevIndex + |req.entries|;
    s1.Send(from, AppendResponse(s1.term, true, matchIndex, matchIndex + 1, None, req.requestId))
  }

  function Accept(s: Node, from: NodeId, req: Rpc, overlap: Overlap): Node
    requires req.AppendRequest? && overlap.count <= |req.entries| && req.prevIndex + overlap.count <= |s.log|
  {
    Acknowledge(Install(s, req, overlap.count), from, req)
  }

  /** The state once the sender is accepted as the leader of the current term. */
  function Following(s: Node, leader: NodeId): Node {
    if s.role != Follower || s.leader != Some(leader) then BecomeFollower(s, s.term, Some(leader)) else s
  }

  predicate EntriesFit(req: Rpc)
    requires req.AppendRequest?
  {
    forall e | e in req.entries :: 0 < e.term <= req.term
  }

  /** The request passes the sender, term and entry checks. */
  predicate Addressed(s: Node, from: NodeId, req: Rpc)
    requires req.AppendRequest?
  {
    req.leader == from && req.term >= s.term && EntriesFit(req)
  }

  predicate PrevMatches(log: seq<LogEntry>, req: Rpc)
    requires req.AppendRequest?
  {
    req.prevIndex <= |log| && (req.prevIndex > 0 ==> log[req.prevIndex - 1].term == req.prevTerm)
  }

  /** Compare the request with the log and accept or refuse it. */
  function Reconcile(s: Node, from: NodeId, req: Rpc): Node
    requires req.AppendRequest?
  {
    if req.prevIndex > |s.log| then
      Reject(s, from, req, |s.log| + 1, None)
    else if !PrevMatches(s.log, req) then
      Reject(s, from, req, ConflictStart(s.log, req.prevIndex), Some(s.log[req.prevIndex - 1].term))
    else
      var overlap := Compare(s.log, req.prevIndex, req.entries, 0);
      CompareBounds(s.log, req.prevIndex, req.entries, 0);
      match overlap
      case Corrupt(_) => s
      case Conflict(n) =>
        if req.prevIndex + n < s.commit then
          Reject(s, from, req, req.prevIndex + n + 1, Some(s.log[req.prevIndex + n].term))
        else Accept(s, from, req, overlap)
      case Reached(_) => Accept(s, from, req, overlap)
  }

  function HandleAppendRequest(s: Node, from: NodeId, req: Rpc): Node
    requires req.AppendRequest?
  {
    if !Addressed(s, from, req) then Reject(s, from, req, |s.log| + 1, None)
    else Reconcile(Following(s, req.leader), from, req)
  }

  /** The largest index at or below `index` holding an entry of the given term, or 0. */
  function LastOfTerm(log: seq<LogEntry>, index: nat, term: nat): nat
    requires index <= |log|
  {
    if index == 0 then 0
    else if log[index - 1].term == term then index
    else LastOfTerm(log, index - 1, term)
  }

  /** Where a leader resumes after a rejection, before the acknowledged prefix is respected. */
  function ResumeAt(log: seq<LogEntry>, resp: Rpc): nat
    requires resp.AppendResponse?
  {
    var found := if resp.conflictTerm.Some? then LastOfTerm(log, |log|, resp.conflictTerm.value) else 0;
    var wanted := if found > 0 then found + 1 else resp.conflictIndex;
    Min(Max(wanted, 1), |log| + 1)
  }

  function HandleAppendResponse(s: Node, from: NodeId, resp: Rpc): Node
    requires resp.AppendResponse?
  {
    if s.role != Leader || resp.term != s.term then s
    else if resp.success then
      if resp.matchIndex > |s.log| then s
      else
        var s1 := s.(matched := s.matched[from := Max(Lookup(s.matched, from), resp.matchIndex)],
                     next := s.next[from := Max(Lookup(s.next, from), resp.matchIndex + 1)]);
        var s2 := AdvanceCommit(s1);
        if s2.commit > s1.commit then Broadcast(s2)
        else if s2.matched[from] < |s2.log| then SendAppend(s2, from)
        else s2
    else if Lookup(s.requestId, from) != resp.requestId then s
    else
      SendAppend(s.(next := s.next[from := Max(ResumeAt(s.log, resp), Lookup(s.matched, from) + 1)]), from)
  }

  // ---- Public calls -------------------------------------------------------------------------

  function AdoptTerm(s: Node, term: nat): Node {
    if term > s.term then BecomeFollower(s, term, None) else s
  }

  function Handle(s: Node, from: NodeId, rpc: Rpc): Node {
    match rpc
    case VoteRequest(_, _, _, _) => HandleVoteRequest(s, from, rpc)
    case VoteResponse(_, _) => HandleVoteResponse(s, from, rpc)
    case AppendRequest(_, _, _, _, _, _, _) => HandleAppendRequest(s, from, rpc)
    case AppendResponse(_, _, _, _, _, _) => HandleAppendResponse(s, from, rpc)
  }

  predicate Accepts(s: Node, m: Message) {
    m.to == s.id && s.IsPeer(m.from)
  }

  function Receive(s: Node, m: Message): Node {
    if Accepts(s, m) then Handle(AdoptTerm(s, m.rpc.term), m.from, m.rpc) else s
  }

  /** The append handler throws: an offered entry differs from a stored one of the same term. */
  predicate HandlerThrows(s: Node, from: NodeId, req: Rpc)
    requires req.AppendRequest?
  {
    && Addressed(s, from, req)
    && PrevMatches(s.log, req)
    && Compare(s.log, req.prevIndex, req.entries, 0).Corrupt?
  }

  predicate Throws(s: Node, m: Message) {
    Accepts(s, m) && m.rpc.AppendRequest? && HandlerThrows(AdoptTerm(s, m.rpc.term), m.from, m.rpc)
  }

  function Appended(s: Node, command: seq<byte>): Node {
    s.(log := s.log + [LogEntry(s.term, command, false)]).Persist()
  }

  function Propose(s: Node, command: seq<byte>): Node {
    if s.role != Leader then s else Broadcast(AdvanceCommit(Appended(s, command)))
  }

  function Tick(s: Node): Node {
    if s.role == Leader then Broadcast(s) else StartElection(s)
  }

  /** The calls that change the protocol state. */
  datatype Call = OnTick | OnMessage(m: Message) | OnPropose(command: seq<byte>)

  function Perform(s: Node, call: Call): Node {
    match call
    case OnTick => Tick(s)
    case OnMessage(m) => Receive(s, m)
    case OnPropose(command) => Propose(s, command)
  }

  lemma {:induction false} PublishedMore(log: seq<LogEntry>, applied: nat, k: nat)
    requires applied <= k <= |log|
    ensures Published(log, applied) + NewlyPublished(log, applied, k) == Published(log, k)
    ensures Published(log, applied) <= Published(log, k)
  {
    if applied < k {
      PublishedMore(log, applied, k - 1);
    }
  }

  // ---- Facts about the comparison of logs ------------------------------------------------------

  lemma {:induction false} CompareBounds(log: seq<LogEntry>, prev: nat, entries: seq<LogEntry>, offset: nat)
    requires offset <= |entries| && prev + offset <= |log|
    ensures var n := Compare(log, prev, entries, offset).count;
            offset <= n <= |entries| && prev + n <= |log|
    ensures !Compare(log, prev, entries, offset).Reached? ==>
              var n := Compare(log, prev, entries, offset).count;
              n < |entries| && prev + n < |log|
    ensures Compare(log, prev, entries, offset).Reached? ==>
              var n := Compare(log, prev, entries, offset).count;
              n == |entries| || prev + n == |log|
    decreases |entries| - offset
  {
    if offset < |entries| && prev + offset < |log| && log[prev + offset] == entries[offset] {
      CompareBounds(log, prev, entries, offset + 1);
    }
  }

  /** Everything before the point where the comparison stopped is equal. */
  lemma {:induction false} CompareEqual(log: seq<LogEntry>, prev: nat, entries: seq<LogEntry>, offset: nat)
    requires offset <= |entries| && prev + offset <= |log|
    ensures var n := Compare(log, prev, entries, offset).count;
            offset <= n <= |entries| && prev + n <= |log| && log[prev + offset..prev + n] == entries[offset..n]
    decreases |entries| - offset
  {
    var n := Compare(log, prev, entries, offset).count;
    if offset < |entries| && prev + offset < |log| && log[prev + offset] == entries[offset] {
      CompareEqual(log, prev, entries, offset + 1);
      assert log[prev + offset..prev + n] == [log[prev + offset]] + log[prev + offset + 1..prev + n];
      assert entries[offset..n] == [entries[offset]] + entries[offset + 1..n];
    }
  }

  /** Why the comparison stopped. */
  lemma {:induction false} CompareStops(log: seq<LogEntry>, prev: nat, entries: seq<LogEntry>, offset: nat)
    requires offset <= |entries| && prev + offset <= |log|
    ensures var o := Compare(log, prev, entries, offset);
            !o.Reached? ==>
              && o.count < |entries| && prev + o.count < |log|
              && (o.Conflict? <==> log[prev + o.count].term != entries[o.count].term)
              && log[prev + o.count] != entries[o.count]
    decreases |entries| - offset
  {
    if offset < |entries| && prev + offset < |log| && log[prev + offset] == entries[offset] {
      CompareStops(log, prev, entries, offset + 1);
    }
  }
}
