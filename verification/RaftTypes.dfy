/** The value types of the Raft core (src/raft/raft.h) and the log vocabulary the proofs share. */
module RaftTypes {

  type byte = x: int | 0 <= x < 256

  type NodeId = nat

  datatype Option<+T> = None | Some(value: T)

  datatype Role = Follower | Candidate | Leader

  datatype LogEntry = LogEntry(term: nat, command: seq<byte>, isNoOp: bool)

  datatype CommittedEntry = CommittedEntry(index: nat, term: nat, command: seq<byte>)

  /** What a node keeps across restarts: `PersistentState` in the source. */
  datatype HardState = HardState(term: nat, vote: Option<NodeId>, log: seq<LogEntry>)

  datatype Rpc =
    | VoteRequest(term: nat, candidate: NodeId, lastIndex: nat, lastTerm: nat)
    | VoteResponse(term: nat, granted: bool)
    | AppendRequest(term: nat, leader: NodeId, prevIndex: nat, prevTerm: nat,
                    entries: seq<LogEntry>, leaderCommit: nat, requestId: nat)
    | AppendResponse(term: nat, success: bool, matchIndex: nat, conflictIndex: nat,
                     conflictTerm: Option<nat>, requestId: nat)

  datatype Message = Message(from: NodeId, to: NodeId, rpc: Rpc)

  // Log indexes are one-based, as in the source; index 0 is the sentinel of term 0.

  function TermAt(log: seq<LogEntry>, index: nat): nat
    requires index <= |log|
  {
    if index == 0 then 0 else log[index - 1].term
  }

  function LastTerm(log: seq<LogEntry>): nat {
    TermAt(log, |log|)
  }

  /** The two logs hold the same first m entries. */
  predicate Agree(a: seq<LogEntry>, b: seq<LogEntry>, m: nat) {
    && m <= |a|
    && m <= |b|
    && a[..m] == b[..m]
  }

  /** Terms are positive and never fall along the log. */
  predicate Ascending(log: seq<LogEntry>) {
    && (forall i | 0 <= i < |log| :: 0 < log[i].term)
    && (forall i, j | 0 <= i < j < |log| :: log[i].term <= log[j].term)
  }

  predicate TermsAtMost(log: seq<LogEntry>, bound: nat) {
    forall i | 0 <= i < |log| :: log[i].term <= bound
  }

  /** The candidate's log, described by its last term and length, is at least as current as `log`. */
  predicate AsCurrent(lastTerm: nat, lastIndex: nat, log: seq<LogEntry>) {
    lastTerm > LastTerm(log) || (lastTerm == LastTerm(log) && lastIndex >= |log|)
  }

  /** The command stream of the first k entries: no-ops are skipped, indexes are kept. */
  function Published(log: seq<LogEntry>, k: nat): seq<CommittedEntry>
    requires k <= |log|
  {
    if k == 0 then []
    else if log[k - 1].isNoOp then Published(log, k - 1)
    else Published(log, k - 1) + [CommittedEntry(k, log[k - 1].term, log[k - 1].command)]
  }

  predicate Distinct(s: seq<NodeId>) {
    forall i, j | 0 <= i < j < |s| :: s[i] != s[j]
  }

  function Elements<T>(s: seq<T>): set<T> {
    set x | x in s
  }

  function Max(a: nat, b: nat): nat {
    if a < b then b else a
  }

  function Min(a: nat, b: nat): nat {
    if a < b then a else b
  }

  lemma AgreeLess(a: seq<LogEntry>, b: seq<LogEntry>, m: nat, k: nat)
    requires Agree(a, b, m) && k <= m
    ensures Agree(a, b, k)
  {
    assert a[..k] == a[..m][..k];
    assert b[..k] == b[..m][..k];
  }

  lemma AgreeSym(a: seq<LogEntry>, b: seq<LogEntry>, m: nat)
    requires Agree(a, b, m)
    ensures Agree(b, a, m)
  {
  }

  lemma AgreeAt(a: seq<LogEntry>, b: seq<LogEntry>, m: nat, k: nat)
    requires Agree(a, b, m) && k < m
    ensures a[k] == b[k]
  {
    assert a[k] == a[..m][k];
    assert b[k] == b[..m][k];
  }

  /** The stream of the first k entries depends on those entries alone. */
  lemma {:induction false} PublishedAgree(a: seq<LogEntry>, b: seq<LogEntry>, k: nat)
    requires Agree(a, b, k)
    ensures Published(a, k) == Published(b, k)
  {
    if k > 0 {
      AgreeLess(a, b, k, k - 1);
      AgreeAt(a, b, k, k - 1);
      PublishedAgree(a, b, k - 1);
    }
  }

  /** A record is in the stream exactly when its index holds that command entry. */
  lemma {:induction false} PublishedAt(log: seq<LogEntry>, k: nat, e: CommittedEntry)
    requires k <= |log|
    ensures e in Published(log, k) <==>
            && 0 < e.index <= k
            && !log[e.index - 1].isNoOp
            && e.term == log[e.index - 1].term
            && e.command == log[e.index - 1].command
  {
    if k > 0 {
      PublishedAt(log, k - 1, e);
    }
  }

  /** The indexes of the stream strictly rise, so no record appears twice. */
  lemma {:induction false} PublishedRises(log: seq<LogEntry>, k: nat)
    requires k <= |log|
    ensures forall i, j | 0 <= i < j < |Published(log, k)| :: Published(log, k)[i].index < Published(log, k)[j].index
    ensures forall i | 0 <= i < |Published(log, k)| :: Published(log, k)[i].index <= k
  {
    if k > 0 {
      PublishedRises(log, k - 1);
    }
  }
}
