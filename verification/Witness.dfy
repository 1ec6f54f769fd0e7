/** Runs exist that elect, replicate and commit: the theorems over runs are not about nothing. */
module Witness {
  import opened RaftTypes
  import opened NodeSpec
  import opened Cluster
  import opened Persistence

  // Two members: the first stands for election, the second votes for it, the first wins and sends its
  // first entry, the second stores and acknowledges it, and the first commits it.

  const EMPTY := HardState(0, None, [])
  const FIRST := LogEntry(1, [], true)

  /** The members of a cluster of two, between calls. */
  function Fresh(n: NodeId, other: NodeId): Node {
    Recovered(n, [other], EMPTY)
  }

  function Standing(a: NodeId, b: NodeId): Node {
    Node(a, [b], Candidate, 1, Some(a), None, [], 0, 0, {a}, map[], map[], map[], [], [], [HardState(1, Some(a), [])])
  }

  function Voted(a: NodeId, b: NodeId): Node {
    Node(b, [a], Follower, 1, Some(a), None, [], 0, 0, {}, map[], map[], map[], [], [], [HardState(1, Some(a), [])])
  }

  function Elected(a: NodeId, b: NodeId): Node {
    Node(a, [b], Leader, 1, Some(a), Some(a), [FIRST], 0, 0, {a, b}, map[b := 1], map[b := 0], map[b := 1],
         [], [], [HardState(1, Some(a), [FIRST])])
  }

  function Stored(a: NodeId, b: NodeId): Node {
    Node(b, [a], Follower, 1, Some(a), Some(a), [FIRST], 0, 0, {}, map[], map[], map[], [], [],
         [HardState(1, Some(a), [FIRST])])
  }

  function Asks(a: NodeId, b: NodeId): Message {
    Message(a, b, VoteRequest(1, a, 0, 0))
  }

  function Votes(a: NodeId, b: NodeId): Message {
    Message(b, a, VoteResponse(1, true))
  }

  function Sends(a: NodeId, b: NodeId): Message {
    Message(a, b, AppendRequest(1, a, 0, 0, [FIRST], 0, 1))
  }

  function Acknowledged(a: NodeId, b: NodeId): Message {
    Message(b, a, AppendResponse(1, true, 1, 2, None, 1))
  }

  /** The call takes a settled node to a settled node and sends the messages. */
  ghost predicate Takes(s: Node, call: Call, s': Node, out: seq<Message>) {
    var r := Perform(s, call);
    r.saves != [] && Settle(r) == s' && r.outbox == out
  }

  lemma TwoQuorum(s: Node, a: NodeId, b: NodeId)
    requires a != b && ((s.id == a && s.peers == [b]) || (s.id == b && s.peers == [a]))
    ensures s.Members() == {a, b} && s.Quorum() == 2
  {
    assert s.Members() == {a, b};
  }

  lemma {:induction false} Stands(a: NodeId, b: NodeId)
    requires a != b
    ensures Takes(Fresh(a, b), OnTick, Standing(a, b), [Asks(a, b)])
  {
    var s1 := Candidacy(Fresh(a, b));
    TwoQuorum(s1, a, b);
    assert VoteRequests(s1, [b]) == [Asks(a, b)];
  }

  lemma {:induction false} VotesFor(a: NodeId, b: NodeId)
    requires a != b
    ensures Takes(Fresh(b, a), OnMessage(Asks(a, b)), Voted(a, b), [Votes(a, b)])
  {
    TwoQuorum(Fresh(b, a), a, b);
    var s1 := AdoptTerm(Fresh(b, a), 1);
    assert s1.vote == None && s1.log == [];
  }

  /** The winner before it scans and sends. */
  function Winner(a: NodeId, b: NodeId): Node {
    Elected(a, b).(requestId := map[b := 0], saves := [HardState(1, Some(a), []), HardState(1, Some(a), [FIRST])])
  }

  lemma {:induction false} Counts(a: NodeId, b: NodeId)
    requires a != b
    ensures Receive(Standing(a, b), Votes(a, b)) == BecomeLeader(Standing(a, b).(votes := {a, b}))
  {
    hide BecomeLeader;
    TwoQuorum(Standing(a, b), a, b);
    TwoQuorum(Standing(a, b).(votes := {a, b}), a, b);
    assert {a} + {b} == {a, b} && |{a, b}| == 2;
  }

  lemma {:induction false} Crowns(a: NodeId, b: NodeId)
    ensures Crowned(Standing(a, b).(votes := {a, b})) == Winner(a, b)
  {
    assert forall m: map<NodeId, nat>, v: nat :: Assign(m, [b], v) == Assign(m, [b][..0], v)[b := v];
    assert [] + [FIRST] == [FIRST];
  }

  lemma {:induction false} WinnerWaits(a: NodeId, b: NodeId)
    requires a != b
    ensures AdvanceCommit(Winner(a, b)) == Winner(a, b)
  {
    var s := Winner(a, b);
    TwoQuorum(s, a, b);
    assert CountAtLeast(s.matched, [b], 1) == 0;
    assert !Replicated(s, 1);
    assert CommitTarget(s, 1) == 0;
  }

  lemma {:induction false} WinnerSends(a: NodeId, b: NodeId)
    requires a != b
    ensures var r := Broadcast(Winner(a, b)); r.saves != [] && Settle(r) == Elected(a, b) && r.outbox == [Sends(a, b)]
  {
    var s := Winner(a, b);
    assert s.log[0..] == [FIRST];
    assert RequestFor(s, b) == Sends(a, b).rpc;
    hide RequestFor;
    assert SendAppend(s, b) == s.(requestId := map[b := 1], outbox := [Sends(a, b)]);
    hide SendAppend;
    assert BroadcastTo(s, [b][..0]) == s;
  }

  lemma {:induction false} Wins(a: NodeId, b: NodeId)
    requires a != b
    ensures Takes(Standing(a, b), OnMessage(Votes(a, b)), Elected(a, b), [Sends(a, b)])
  {
    hide Receive, Crowned, AdvanceCommit, BroadcastTo, Winner;
    Counts(a, b);
    Crowns(a, b);
    WinnerWaits(a, b);
    WinnerSends(a, b);
  }

  lemma {:induction false} Installs(a: NodeId, b: NodeId)
    ensures var s, q := Voted(a, b).(leader := Some(a)), Sends(a, b).rpc;
            && Compare(s.log, 0, q.entries, 0) == Reached(0)
            && Install(s, q, 0) == Stored(a, b).(saves := s.saves + [HardState(1, Some(a), [FIRST])])
  {
    var s, q := Voted(a, b).(leader := Some(a)), Sends(a, b).rpc;
    assert s.log[..0] + q.entries[0..] == [FIRST];
  }

  lemma {:induction false} Stores(a: NodeId, b: NodeId)
    requires a != b
    ensures Takes(Voted(a, b), OnMessage(Sends(a, b)), Stored(a, b), [Acknowledged(a, b)])
  {
    var s, q := Voted(a, b), Sends(a, b).rpc;
    TwoQuorum(s, a, b);
    assert Accepts(s, Sends(a, b));
    assert EntriesFit(q);
    assert Following(s, a) == s.(leader := Some(a));
    Installs(a, b);
    hide Compare, Install, Following, EntriesFit, Accepts;
    assert Reconcile(s.(leader := Some(a)), a, q) == Acknowledge(Install(s.(leader := Some(a)), q, 0), a, q);
    hide Reconcile;
    assert Receive(s, Sends(a, b)) == Acknowledge(Install(s.(leader := Some(a)), q, 0), a, q);
  }

  /** The leader once it has recorded the acknowledgement. */
  function Informed(a: NodeId, b: NodeId): Node {
    Elected(a, b).(matched := map[b := 1], next := map[b := 2])
  }

  lemma {:induction false} InformedCommits(a: NodeId, b: NodeId)
    requires a != b
    ensures var r := AdvanceCommit(Informed(a, b)); r.commit == 1 && r == Informed(a, b).(commit := 1, applied := 1)
  {
    var s := Informed(a, b);
    TwoQuorum(s, a, b);
    assert CountAtLeast(s.matched, [b], 1) == 1;
    assert Replicated(s, 1);
    assert CommitTarget(s, 1) == 1;
    assert NewlyPublished(s.log, 0, 1) == [];
  }

  lemma {:induction false} Commits(a: NodeId, b: NodeId)
    requires a != b
    ensures var r := Perform(Elected(a, b), OnMessage(Acknowledged(a, b)));
            r.role == Leader && r.commit == 1 && r.log == [FIRST] && r.saves != []
  {
    var s, m := Elected(a, b), Acknowledged(a, b);
    TwoQuorum(s, a, b);
    assert Accepts(s, m);
    assert s.matched[b := 1] == map[b := 1] && s.next[b := 2] == map[b := 2];
    InformedCommits(a, b);
    hide AdvanceCommit, BroadcastTo, Accepts;
    assert Receive(s, m) == Broadcast(AdvanceCommit(Informed(a, b)));
    BroadcastQuiet(AdvanceCommit(Informed(a, b)), [b]);
  }

  ghost function Pair(a: NodeId, b: NodeId, s: Node, t: Node, net: set<Message>): Cluster {
    Cluster({a, b}, map[a := s, b := t], net)
  }

  lemma PairStarts(a: NodeId, b: NodeId)
    requires a != b
    ensures Init(Pair(a, b, Fresh(a, b), Fresh(b, a), {}))
  {
    TwoQuorum(Fresh(a, b), a, b);
    TwoQuorum(Fresh(b, a), a, b);
  }

  lemma FirstMoves(a: NodeId, b: NodeId, s: Node, t: Node, net: set<Message>, call: Call, s': Node, out: seq<Message>)
    requires a != b && Takes(s, call, s', out) && (call.OnMessage? ==> call.m in net)
    ensures Connected(Pair(a, b, s, t, net), Pair(a, b, s', t, net + Elements(out)))
  {
    hide Perform;
    var c, c' := Pair(a, b, s, t, net), Pair(a, b, s', t, net + Elements(out));
    assert c.nodes[a := s'] == c'.nodes;
    assert Next(c, Run(a, call), c');
  }

  lemma SecondMoves(a: NodeId, b: NodeId, s: Node, t: Node, net: set<Message>, call: Call, t': Node, out: seq<Message>)
    requires a != b && Takes(t, call, t', out) && (call.OnMessage? ==> call.m in net)
    ensures Connected(Pair(a, b, s, t, net), Pair(a, b, s, t', net + Elements(out)))
  {
    hide Perform;
    var c, c' := Pair(a, b, s, t, net), Pair(a, b, s, t', net + Elements(out));
    assert c.nodes[b := t'] == c'.nodes;
    assert Next(c, Run(b, call), c');
  }

  /** For any two members there is a run in which votes and an acknowledgement are delivered and an
      entry commits. */
  lemma PairRun(a: NodeId, b: NodeId) returns (run: seq<Cluster>)
    requires a != b
    ensures IsRun(run) && |run| == 6 && run[5].members == {a, b} && a in run[5].nodes && b in run[5].nodes
    ensures Asks(a, b) in run[5].net && Votes(a, b) in run[5].net
    ensures Sends(a, b) in run[5].net && Acknowledged(a, b) in run[5].net
    ensures run[5].nodes[a].role == Leader && run[5].nodes[a].commit == 1
    ensures run[5].nodes[a].log == run[5].nodes[b].log == [FIRST]
  {
    hide Takes, Perform, Init, Connected, Elements;
    PairStarts(a, b);
    var n1 := {} + Elements([Asks(a, b)]);
    var n2 := n1 + Elements([Votes(a, b)]);
    var n3 := n2 + Elements([Sends(a, b)]);
    var n4 := n3 + Elements([Acknowledged(a, b)]);
    Singleton(Asks(a, b));
    Singleton(Votes(a, b));
    Singleton(Sends(a, b));
    Singleton(Acknowledged(a, b));
    Stands(a, b);
    FirstMoves(a, b, Fresh(a, b), Fresh(b, a), {}, OnTick, Standing(a, b), [Asks(a, b)]);
    VotesFor(a, b);
    SecondMoves(a, b, Standing(a, b), Fresh(b, a), n1, OnMessage(Asks(a, b)), Voted(a, b), [Votes(a, b)]);
    Wins(a, b);
    FirstMoves(a, b, Standing(a, b), Voted(a, b), n2, OnMessage(Votes(a, b)), Elected(a, b), [Sends(a, b)]);
    Stores(a, b);
    SecondMoves(a, b, Elected(a, b), Voted(a, b), n3, OnMessage(Sends(a, b)), Stored(a, b), [Acknowledged(a, b)]);
    Commits(a, b);
    var r := Perform(Elected(a, b), OnMessage(Acknowledged(a, b)));
    var last := Settle(r);
    SettledTakes(Elected(a, b), OnMessage(Acknowledged(a, b)));
    FirstMoves(a, b, Elected(a, b), Stored(a, b), n4, OnMessage(Acknowledged(a, b)), last, r.outbox);
    run := [Pair(a, b, Fresh(a, b), Fresh(b, a), {}), Pair(a, b, Standing(a, b), Fresh(b, a), n1),
            Pair(a, b, Standing(a, b), Voted(a, b), n2), Pair(a, b, Elected(a, b), Voted(a, b), n3),
            Pair(a, b, Elected(a, b), Stored(a, b), n4), Pair(a, b, last, Stored(a, b), n4 + Elements(r.outbox))];
  }

  lemma Singleton(m: Message)
    ensures m in Elements([m])
  {
  }

  lemma SettledTakes(s: Node, call: Call)
    requires Perform(s, call).saves != []
    ensures Takes(s, call, Settle(Perform(s, call)), Perform(s, call).outbox)
  {
  }
}
