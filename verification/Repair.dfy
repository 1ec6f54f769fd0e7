/** Fast log repair: how a leader finds the point where a follower's log leaves its own, and why an
    in-order exchange of requests and replies ends with equal logs. */
module Repair {
  import opened RaftTypes
  import opened NodeSpec
  import opened Persistence
  import opened Lifetime
  import opened Replication

  /** Wherever two logs hold entries of one term, even at different indexes, they share everything up
      to the smaller index. */
  ghost predicate Interlocks(a: seq<LogEntry>, b: seq<LogEntry>) {
    forall j, k | 0 <= j < |a| && 0 <= k < |b| && a[j].term == b[k].term :: Agree(a, b, Min(j, k) + 1)
  }

  /** The backward search finds the last entry of the term, or 0 if there is none. */
  lemma {:induction false} LastOfTermHolds(log: seq<LogEntry>, index: nat, term: nat)
    requires index <= |log|
    ensures var found := LastOfTerm(log, index, term);
            && found <= index && (found > 0 ==> log[found - 1].term == term)
            && forall j | found <= j < index :: log[j].term != term
  {
    if index > 0 && log[index - 1].term != term {
      LastOfTermHolds(log, index - 1, term);
    }
  }

  /** The conflict index is where the run of equal terms ending at the index begins. */
  lemma {:induction false} ConflictStartBounds(log: seq<LogEntry>, index: nat)
    requires 0 < index <= |log|
    ensures var start := ConflictStart(log, index);
            && 0 < start <= index && (start > 1 ==> log[start - 2].term != log[index - 1].term)
            && forall j | start <= j + 1 <= index :: log[j].term == log[index - 1].term
  {
    if index > 1 && log[index - 2].term == log[index - 1].term {
      ConflictStartBounds(log, index - 1);
    }
  }

  /** The reply a follower gives when the previous entry of a request does not match. */
  function Refusal(log: seq<LogEntry>, term: nat, req: Rpc): Rpc
    requires req.AppendRequest? && !PrevMatches(log, req)
  {
    if req.prevIndex > |log| then AppendResponse(term, false, 0, |log| + 1, None, req.requestId)
    else AppendResponse(term, false, 0, ConflictStart(log, req.prevIndex), Some(log[req.prevIndex - 1].term),
                        req.requestId)
  }

  /** A refusal never moves the leader forward: it resumes at or before the refused previous index,
      so it makes at least as much progress as stepping back by one. */
  lemma {:induction false} RefusalRetreats(full: seq<LogEntry>, log: seq<LogEntry>, term: nat, req: Rpc)
    requires req.AppendRequest? && !PrevMatches(log, req) && Interlocks(log, full)
    requires req.prevIndex <= |full| ==> req.prevTerm == TermAt(full, req.prevIndex)
    ensures 0 < ResumeAt(full, Refusal(log, term, req)) <= req.prevIndex
  {
    hide LastOfTerm, ConflictStart;
    var prev := req.prevIndex;
    if prev <= |log| {
      ConflictStartBounds(log, prev);
      var ct := log[prev - 1].term;
      LastOfTermHolds(full, |full|, ct);
      var found := LastOfTerm(full, |full|, ct);
      if found > 0 {
        assert Agree(log, full, Min(prev - 1, found - 1) + 1);
        assert full[found - 1].term == ct;
        assert log[Min(prev - 1, found - 1)] == full[Min(prev - 1, found - 1)];
      }
    }
  }

  // ---- The closed exchange ----------------------------------------------------------------------

  /** A leader, a follower and the leader's latest request to it. */
  datatype Link = Link(leader: Node, follower: Node, request: Rpc) {
    function Peer(): NodeId {
      follower.id
    }
  }

  /** The follower answers the request and the leader handles the answer, which on a refusal makes it
      send the next request. */
  function Round(k: Link): Link {
    var f := Receive(k.follower.(outbox := []), Message(k.leader.id, k.Peer(), k.request));
    if f.outbox == [] then k.(follower := f)
    else
      var l := Receive(k.leader.(outbox := []), f.outbox[|f.outbox| - 1]);
      Link(l, f, if l.outbox == [] then k.request else l.outbox[|l.outbox| - 1].rpc)
  }

  function Rounds(k: Link, n: nat): Link
    decreases n
  {
    if n == 0 then k else Rounds(Round(k), n - 1)
  }

  /** What a reachable cluster guarantees of a leader and a follower that has not moved past its term. */
  ghost predicate Compatible(l: Node, f: Node) {
    && WellFormed(l) && WellFormed(f)
    && l.role == Leader && f.id in l.peers && l.id in f.peers
    && f.term <= l.term && (f.term == l.term ==> f.role != Leader)
    && l.log != [] && LastTerm(l.log) == l.term
    && Ascending(l.log) && TermsAtMost(l.log, l.term)
    && Ascending(f.log) && TermsAtMost(f.log, f.term)
    && Interlocks(f.log, l.log)
    && (forall j | 0 <= j < |f.log| && f.log[j].term == l.term :: j < |l.log|)
    && Agree(f.log, l.log, f.commit)
    && f.id in l.matched && Agree(f.log, l.log, l.matched[f.id])
  }

  /** The request is the leader's latest one to this follower. */
  ghost predicate Linked(k: Link) {
    && Compatible(k.leader, k.follower)
    && var l, p := k.leader, k.Peer();
    && Tracks(l, p)
    && var prev := l.next[p] - 1;
    && k.request == AppendRequest(l.term, l.id, prev, TermAt(l.log, prev), l.log[prev..], l.commit, l.requestId[p])
  }

  lemma EntriesOfLeader(k: Link)
    requires Linked(k)
    ensures EntriesFit(k.request)
  {
    forall e | e in k.request.entries
      ensures 0 < e.term <= k.request.term
    {
      var i :| 0 <= i < |k.request.entries| && k.request.entries[i] == e;
      assert e == k.leader.log[k.request.prevIndex + i];
    }
  }

  /** The follower before it looks at the previous entry. */
  function Ready(k: Link): Node {
    Following(AdoptTerm(k.follower.(outbox := []), k.leader.term), k.leader.id)
  }

  lemma ReadyKeeps(k: Link)
    requires Linked(k)
    ensures var f := Ready(k);
            && f.log == k.follower.log && f.commit == k.follower.commit && f.id == k.follower.id
            && f.term == k.leader.term && f.role == Follower && f.outbox == [] && f.peers == k.follower.peers
  {
  }

  lemma {:induction false} ReadyHandles(k: Link)
    requires Linked(k)
    ensures var q := k.request;
            var f := Receive(k.follower.(outbox := []), Message(k.leader.id, k.Peer(), q));
            && (!PrevMatches(k.follower.log, q) ==>
                  f == Ready(k).Send(k.leader.id, Refusal(k.follower.log, k.leader.term, q)))
            && (PrevMatches(k.follower.log, q) ==>
                  && q.prevIndex <= |k.follower.log|
                  && var o := Compare(k.follower.log, q.prevIndex, q.entries, 0);
                  && o.count <= |q.entries| && q.prevIndex + o.count <= |k.follower.log|
                  && (!o.Corrupt? && (o.Conflict? ==> q.prevIndex + o.count >= k.follower.commit) ==>
                        f == Acknowledge(Install(Ready(k), q, o.count), k.leader.id, q)))
  {
    hide Compare, EntriesFit, ConflictStart, Ascending, TermsAtMost, Interlocks, Install, Acknowledge, Published;
    EntriesOfLeader(k);
    ReadyKeeps(k);
    assert Accepts(k.follower.(outbox := []), Message(k.leader.id, k.Peer(), k.request));
    if PrevMatches(k.follower.log, k.request) {
      CompareBounds(k.follower.log, k.request.prevIndex, k.request.entries, 0);
    }
  }

  /** The state of the leader after a refusal, with its next request queued. */
  lemma {:induction false} LeaderRetries(k: Link, resp: Rpc)
    requires Linked(k) && resp.AppendResponse? && !resp.success
    requires resp.term == k.leader.term && resp.requestId == k.request.requestId
    requires 0 < ResumeAt(k.leader.log, resp) <= |k.leader.log| + 1
    ensures var l, p := k.leader, k.Peer();
            var l' := Receive(l.(outbox := []), Message(p, l.id, resp));
            var next := Max(ResumeAt(l.log, resp), l.matched[p] + 1);
            && l' == l.(next := l.next[p := next], requestId := l.requestId[p := l.requestId[p] + 1],
                        outbox := l'.outbox)
            && l'.outbox == [Message(l.id, p, AppendRequest(l.term, l.id, next - 1, TermAt(l.log, next - 1),
                                                          l.log[next - 1..], l.commit, l.requestId[p] + 1))]
  {
    hide LastOfTerm, Ascending, TermsAtMost, Interlocks, Published, ResumeAt;
    var l := k.leader;
    var next := Max(ResumeAt(l.log, resp), l.matched[k.Peer()] + 1);
    assert Accepts(l.(outbox := []), Message(k.Peer(), l.id, resp));
    assert Tracks(l.(outbox := [], next := l.next[k.Peer() := next]), k.Peer());
  }

  /** A refused round keeps the link and moves the leader strictly back, to the refused previous index
      or before it. */
  lemma {:induction false} RefusedRound(k: Link)
    requires Linked(k) && !PrevMatches(k.follower.log, k.request)
    ensures var k' := Round(k);
            && Linked(k') && k'.leader.log == k.leader.log && k'.Peer() == k.Peer()
            && k'.leader.next[k.Peer()] <= k.request.prevIndex < k.leader.next[k.Peer()]
  {
    hide LastOfTerm, ConflictStart, Receive, Ascending, TermsAtMost, Published;
    var l, p, q := k.leader, k.Peer(), k.request;
    var resp := Refusal(k.follower.log, l.term, q);
    ReadyHandles(k);
    ReadyKeeps(k);
    RefusalRetreats(l.log, k.follower.log, l.term, q);
    LeaderRetries(k, resp);
    MatchedBelow(k);
    var f := Receive(k.follower.(outbox := []), Message(l.id, p, q));
    var l' := Receive(l.(outbox := []), Message(p, l.id, resp));
    WellFormedOutbox(k.follower);
    WellFormedOutbox(l);
    ReceiveFine(k.follower.(outbox := []), Message(l.id, p, q));
    ReceiveFine(l.(outbox := []), Message(p, l.id, resp));
    assert Round(k) == Link(l', f, l'.outbox[0].rpc);
    assert TermsAtMost(f.log, f.term) by {
      TermsAtMostLess(f.log, k.follower.term, f.term);
    }
  }

  lemma TermsAtMostLess(log: seq<LogEntry>, a: nat, b: nat)
    requires TermsAtMost(log, a) && a <= b
    ensures TermsAtMost(log, b)
  {
  }

  lemma WellFormedOutbox(s: Node)
    requires WellFormed(s)
    ensures WellFormed(s.(outbox := []))
  {
    assert s.(outbox := []).Members() == s.Members();
  }

  /** A refused previous entry lies beyond the acknowledged prefix. */
  lemma MatchedBelow(k: Link)
    requires Linked(k) && !PrevMatches(k.follower.log, k.request)
    ensures k.leader.matched[k.Peer()] + 1 <= k.request.prevIndex
  {
    hide Ascending, TermsAtMost, Interlocks, Published;
    var l, f, m := k.leader, k.follower, k.leader.matched[k.Peer()];
    if m >= k.request.prevIndex && m > 0 {
      AgreeAt(f.log, l.log, m, m - 1);
    }
  }

  /** What a link says about the two logs. */
  lemma LinkedLogs(k: Link)
    requires Linked(k)
    ensures var f, l, q := k.follower.log, k.leader.log, k.request;
            && q.AppendRequest? && q.prevIndex <= |l| && q.entries == l[q.prevIndex..]
            && q.prevTerm == TermAt(l, q.prevIndex)
            && Interlocks(f, l) && Agree(f, l, k.follower.commit)
  {
    hide Interlocks, Ascending, TermsAtMost, WellFormed, Agree;
  }

  /** Where interlocking logs meet at the previous entry, they share everything before it, and the
      offered slice contradicts neither an entry of its own term nor a committed one. */
  lemma {:induction false} SliceClean(f: seq<LogEntry>, l: seq<LogEntry>, q: Rpc, commit: nat)
    requires Interlocks(f, l) && Agree(f, l, commit)
    requires q.AppendRequest? && SliceOf(q, l) && PrevMatches(f, q)
    ensures Agree(f, l, q.prevIndex)
    ensures var o := Compare(f, q.prevIndex, q.entries, 0);
            !o.Corrupt? && (o.Conflict? ==> q.prevIndex + o.count >= commit)
  {
    hide Compare;
    if q.prevIndex > 0 {
      assert Agree(f, l, Min(q.prevIndex - 1, q.prevIndex - 1) + 1);
    }
    hide Interlocks;
    CompareStops(f, q.prevIndex, q.entries, 0);
    var o := Compare(f, q.prevIndex, q.entries, 0);
    if !o.Reached? {
      var x := q.prevIndex + o.count;
      assert q.entries[o.count] == l[x];
      StopsApart(f, l, x, commit);
    }
  }

  lemma {:induction false} OverlapClean(k: Link)
    requires Linked(k) && PrevMatches(k.follower.log, k.request)
    ensures SliceOf(k.request, k.leader.log)
    ensures Agree(k.follower.log, k.leader.log, k.request.prevIndex)
    ensures var o := Compare(k.follower.log, k.request.prevIndex, k.request.entries, 0);
            !o.Corrupt? && (o.Conflict? ==> k.request.prevIndex + o.count >= k.follower.commit)
  {
    LinkedLogs(k);
    hide Compare, Linked, Interlocks, PrevMatches, Agree;
    var l, q := k.leader.log, k.request;
    assert l[q.prevIndex..q.prevIndex + |q.entries|] == l[q.prevIndex..];
    SliceClean(k.follower.log, l, q, k.follower.commit);
  }

  lemma StopsApart(f: seq<LogEntry>, l: seq<LogEntry>, x: nat, commit: nat)
    requires Interlocks(f, l) && x < |f| && x < |l| && f[x] != l[x] && Agree(f, l, commit)
    ensures f[x].term != l[x].term && commit <= x
  {
    if f[x].term == l[x].term {
      assert Agree(f, l, Min(x, x) + 1);
      AgreeAt(f, l, x + 1, x);
      assert false;
    }
    if x < commit {
      AgreeAt(f, l, commit, x);
      assert false;
    }
  }

  /** A follower's log that contains the leader's whole log is equal to it. */
  lemma NothingBeyond(k: Link)
    requires Linked(k) && Agree(k.follower.log, k.leader.log, |k.leader.log|)
    ensures k.follower.log == k.leader.log
  {
    hide Interlocks, Published;
    var f, l := k.follower.log, k.leader.log;
    AgreeAt(f, l, |l|, |l| - 1);
    assert f[|f| - 1].term == k.leader.term;
    assert f == f[..|l|];
  }

  lemma AcknowledgeShape(s: Node, from: NodeId, req: Rpc)
    requires req.AppendRequest?
    ensures var s', e := Acknowledge(s, from, req), req.prevIndex + |req.entries|;
            && s'.log == s.log && s'.id == s.id
            && s'.outbox ==
               s.outbox + [Message(s.id, from, AppendResponse(s.term, true, e, e + 1, None, req.requestId))]
  {
  }

  lemma {:induction false} MergedEqual(k: Link)
    requires Linked(k) && PrevMatches(k.follower.log, k.request)
    ensures Merged(k.follower.log, k.request) == k.leader.log
  {
    LinkedLogs(k);
    OverlapClean(k);
    hide Compare, Linked, Merged;
    var f, l, q := k.follower, k.leader, k.request;
    MergedReaches(f.log, q, l.log);
    assert q.prevIndex + |q.entries| == |l.log|;
    if Merged(f.log, q) == f.log {
      NothingBeyond(k);
    } else {
      assert l.log[..|l.log|] == l.log;
    }
  }

  lemma {:induction false} InstallMerges(s: Node, req: Rpc)
    requires req.AppendRequest? && req.prevIndex <= |s.log|
    ensures var n := Compare(s.log, req.prevIndex, req.entries, 0).count;
            && n <= |req.entries| && req.prevIndex + n <= |s.log|
            && var s' := Install(s, req, n);
            s'.log == Merged(s.log, req) && s'.outbox == s.outbox && s'.id == s.id && s'.term == s.term
  {
    hide Compare;
    CompareBounds(s.log, req.prevIndex, req.entries, 0);
  }

  lemma {:induction false} InstalledEqual(k: Link)
    requires Linked(k) && PrevMatches(k.follower.log, k.request)
    ensures var n := Compare(k.follower.log, k.request.prevIndex, k.request.entries, 0).count;
            && n <= |k.request.entries| && k.request.prevIndex + n <= |k.follower.log|
            && Install(Ready(k), k.request, n).log == k.leader.log
            && Install(Ready(k), k.request, n).outbox == [] && Install(Ready(k), k.request, n).id == k.follower.id
            && Install(Ready(k), k.request, n).term == k.leader.term
  {
    MergedEqual(k);
    ReadyKeeps(k);
    LinkedLogs(k);
    assert k.request.prevIndex <= |k.follower.log|;
    hide Compare, Linked, Ready, Install, Merged, PrevMatches;
    InstallMerges(Ready(k), k.request);
  }

  lemma {:induction false} AcceptedLog(k: Link)
    requires Linked(k) && PrevMatches(k.follower.log, k.request)
    ensures var f := Receive(k.follower.(outbox := []), Message(k.leader.id, k.Peer(), k.request));
            && f.log == k.leader.log && f.id == k.follower.id
            && f.outbox == [Message(f.id, k.leader.id, AppendResponse(k.leader.term, true, |k.leader.log|,
                                                                       |k.leader.log| + 1, None, k.request.requestId))]
  {
    hide Compare, Compatible, Receive, Install, Acknowledge, Ready;
    OverlapClean(k);
    ReadyHandles(k);
    ReadyKeeps(k);
    InstalledEqual(k);
    var n := Compare(k.follower.log, k.request.prevIndex, k.request.entries, 0).count;
    AcknowledgeShape(Install(Ready(k), k.request, n), k.leader.id, k.request);
  }

  /** A leader told that its whole log has arrived records exactly that. */
  lemma {:induction false} LeaderRecords(l: Node, p: NodeId, resp: Rpc)
    requires l.role == Leader && Tracks(l, p) && resp.AppendResponse? && resp.success
    requires resp.term == l.term && resp.matchIndex == |l.log|
    ensures var l' := HandleAppendResponse(l, p, resp);
            l'.log == l.log && p in l'.matched && l'.matched[p] == |l.log|
  {
    hide AdvanceCommit, BroadcastTo;
    var l1 := l.(matched := l.matched[p := Max(Lookup(l.matched, p), |l.log|)],
                 next := l.next[p := Max(Lookup(l.next, p), |l.log| + 1)]);
    AdvanceQuiet(l1);
    BroadcastQuiet(AdvanceCommit(l1), AdvanceCommit(l1).peers);
  }

  /** An accepted round ends with equal logs, and the leader knows it. */
  lemma {:induction false} AcceptedRound(k: Link)
    requires Linked(k) && PrevMatches(k.follower.log, k.request)
    ensures var k' := Round(k);
            && k'.follower.log == k'.leader.log == k.leader.log
            && k.Peer() in k'.leader.matched && k'.leader.matched[k.Peer()] == |k.leader.log|
  {
    hide Ascending, TermsAtMost, Interlocks, WellFormed, HandleAppendRequest, HandleAppendResponse, Compare;
    var l, p := k.leader, k.Peer();
    AcceptedLog(k);
    var f := Receive(k.follower.(outbox := []), Message(l.id, p, k.request));
    var l0 := l.(outbox := []);
    assert Accepts(l0, f.outbox[0]) by {
      PeersApart(l);
    }
    LeaderRecords(l0, p, f.outbox[0].rpc);
  }

  lemma PeersApart(s: Node)
    requires WellFormed(s)
    ensures s.id !in s.peers
  {
  }

  /** Repair terminates: after at most as many rounds as the leader's next index, the two logs are
      equal and the leader has recorded it. */
  lemma {:induction false} RepairConverges(k: Link) returns (n: nat)
    requires Linked(k)
    ensures 0 < n <= k.leader.next[k.Peer()]
    ensures var e := Rounds(k, n);
            && e.follower.log == e.leader.log == k.leader.log
            && k.Peer() in e.leader.matched && e.leader.matched[k.Peer()] == |k.leader.log|
    decreases k.leader.next[k.Peer()]
  {
    hide Linked, Round, PrevMatches;
    TracksPeer(k);
    if PrevMatches(k.follower.log, k.request) {
      AcceptedRound(k);
      assert Rounds(Round(k), 0) == Round(k);
      n := 1;
    } else {
      RefusedRound(k);
      var rest := RepairConverges(Round(k));
      n := rest + 1;
    }
  }

  lemma TracksPeer(k: Link)
    requires Linked(k)
    ensures Tracks(k.leader, k.Peer()) && k.request.AppendRequest?
  {
  }
}
