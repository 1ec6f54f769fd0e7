/** A cluster whose nodes keep their state in files: every save of a call is an operation on the
    node's snapshot file, and a node that crashes restarts from the bytes the file then holds. Each such
    system behaves like a cluster with ideal storage, so the theorems over runs hold of the bytes. */
module DurableCluster {
  import opened RaftTypes
  import opened NodeSpec
  import Ideal = Cluster
  import opened Persistence
  import opened ByteOrder
  import opened SnapshotFormat
  import opened DurableStorage
  import StateCodec
  import StoreRuns
  import Safety
  import Theorems

  datatype System = System(cluster: Ideal.Cluster, files: map<NodeId, Option<Bytes>>)

  /** A call that runs to its end or is cut off, with what happens to the file meanwhile. */
  datatype Action =
    | Finish(node: NodeId, call: Call, events: seq<StoreRuns.Event>)
    | CutShort(node: NodeId, call: Call, events: seq<StoreRuns.Event>)

  /** The file is given the states one after the other; only the last save may not complete. */
  ghost predicate Writes(events: seq<StoreRuns.Event>, states: seq<HardState>) {
    && |events| <= |states|
    && (forall i | 0 <= i < |events| ::
          events[i].operation == SaveOf(states[i]) && StateCodec.Encodable(states[i]))
    && (forall i | 0 <= i < |events| - 1 :: events[i].outcome.Completed?)
  }

  ghost predicate WritesAll(events: seq<StoreRuns.Event>, states: seq<HardState>) {
    && Writes(events, states) && |events| == |states|
    && (events != [] ==> events[|events| - 1].outcome.Completed?)
  }

  ghost predicate Enabled(d: System, a: Action) {
    && a.node in d.cluster.nodes && a.node in d.files
    && Ideal.Deliverable(d.cluster, a.call)
    && Perform(d.cluster.nodes[a.node], a.call).saves != []
    && StoreRuns.IsRun(d.files[a.node], a.events)
  }

  ghost predicate Next(d: System, a: Action, d': System) {
    && Enabled(d, a)
    && var c, s := d.cluster, d.cluster.nodes[a.node];
    && var r, file := Perform(s, a.call), StoreRuns.FileAfter(d.files[a.node], a.events);
    && d'.files == d.files[a.node := file]
    && match a
       case Finish(n, _, events) =>
         && WritesAll(events, r.saves[1..])
         && d'.cluster == c.(nodes := c.nodes[n := Ideal.Settle(r)], net := c.net + Elements(r.outbox))
       case CutShort(n, _, events) =>
         && Writes(events, r.saves[1..])
         && StoredState(file).Ok? && Recoverable(n, s.peers, StoredState(file).value)
         && d'.cluster == c.(nodes := c.nodes[n := Recovered(n, s.peers, StoredState(file).value)])
  }

  /** No node has a file yet. */
  ghost predicate Init(d: System) {
    && Ideal.Init(d.cluster) && d.files.Keys == d.cluster.nodes.Keys
    && forall n | n in d.files :: d.files[n] == None
  }

  ghost predicate Connected(d: System, d': System) {
    exists a: Action :: Next(d, a, d')
  }

  ghost predicate IsRun(run: seq<System>) {
    && run != []
    && Init(run[0])
    && (forall i | 0 <= i < |run| - 1 :: Connected(run[i], run[i + 1]))
  }

  // ---- One call and one file --------------------------------------------------------------------

  /** A completed save is what the file recovers; a failed or cut-off one leaves the old state or the
      new one. */
  lemma SaveRecovers(file: Option<Bytes>, hard: HardState, s: HardState,
                     outcome: StoreRuns.Outcome, after: Option<Bytes>)
    requires StoredState(file) == Ok(hard) && StateCodec.Encodable(s)
    requires StoreRuns.Happens(file, SaveOf(s), outcome, after)
    ensures StoredState(after) == Ok(hard) || StoredState(after) == Ok(s)
    ensures outcome.Completed? ==> StoredState(after) == Ok(s)
  {
    var applied := StoreRuns.Effect(file, SaveOf(s), outcome, after);
    hide Load, StoreRuns.Happens, StateIn, StateCodec.Encode, StateCodec.Encodable;
    SavedDecodes(Load(file).value, s);
  }

  lemma WritesFront(events: seq<StoreRuns.Event>, states: seq<HardState>)
    requires Writes(events, states) && events != []
    ensures var n := |events| - 1;
            && Writes(events[..n], states)
            && (n > 0 ==> events[..n][n - 1].outcome.Completed?)
            && events[n].operation == SaveOf(states[n]) && StateCodec.Encodable(states[n])
  {
    hide SaveOf, StateCodec.Encodable;
    var n := |events| - 1;
    forall i | 0 <= i < n
      ensures events[..n][i] == events[i]
    {
    }
  }

  /** However far the saves of a call get, the file recovers one of the states the call saved or the
      one before it; if they all complete, the last. */
  lemma {:induction false} FileRecovers(file: Option<Bytes>, hard: HardState, events: seq<StoreRuns.Event>,
                                        states: seq<HardState>) returns (k: nat)
    requires StoredState(file) == Ok(hard) && StoreRuns.IsRun(file, events)
    requires |events| <= |states| && Writes(events, states)
    ensures k <= |events| && StoredState(StoreRuns.FileAfter(file, events)) == Ok(([hard] + states)[k])
    ensures events != [] && events[|events| - 1].outcome.Completed? ==> k == |events|
    decreases |events|
  {
    hide StoredState, StoreRuns.Happens, StateCodec.Encodable, SaveOf, Writes;
    if events == [] {
      k := 0;
    } else {
      var n := |events| - 1;
      StoreRuns.RunFront(file, events);
      WritesFront(events, states);
      hide StoreRuns.IsRun;
      k := FileRecovers(file, hard, events[..n], states);
      var before := ([hard] + states)[k];
      SaveRecovers(StoreRuns.FileAfter(file, events[..n]), before, states[n], events[n].outcome, events[n].after);
      if StoredState(events[n].after) == Ok(states[n]) {
        k := n + 1;
      }
    }
  }

  /** A call only adds saves, and ends saved. */
  lemma {:induction false} CallAddsSaves(s: Node, call: Call)
    requires s.saves == [s.Hard()]
    ensures var r := Perform(s, call);
            && r.saves != [] && [s.Hard()] + r.saves[1..] == r.saves && r.saves[|r.saves| - 1] == r.Hard()
  {
    hide Perform, Midway;
    CallSaves(s, call);
  }

  // ---- Refinement -------------------------------------------------------------------------------

  /** Every file recovers what its node has in memory. */
  ghost predicate Agreed(d: System) {
    && d.files.Keys == d.cluster.nodes.Keys
    && forall n | n in d.files ::
         d.cluster.nodes[n].saves == [d.cluster.nodes[n].Hard()]
         && StoredState(d.files[n]) == Ok(d.cluster.nodes[n].Hard())
  }

  /** What a node finds on its disk when the saves of a call were cut off anywhere: one of the states
      that the crash steps of the cluster restart from. */
  lemma {:induction false} CrashFindsSave(s: Node, call: Call, file: Option<Bytes>, events: seq<StoreRuns.Event>)
      returns (k: nat)
    requires s.saves == [s.Hard()] && StoredState(file) == Ok(s.Hard()) && StoreRuns.IsRun(file, events)
    requires Perform(s, call).saves != [] && Writes(events, Perform(s, call).saves[1..])
    ensures k < |Perform(s, call).saves|
    ensures StoredState(StoreRuns.FileAfter(file, events)) == Ok(Perform(s, call).saves[k])
    ensures WritesAll(events, Perform(s, call).saves[1..]) ==>
              StoredState(StoreRuns.FileAfter(file, events)) == Ok(Perform(s, call).Hard())
  {
    hide Perform, StoredState, StoreRuns.IsRun;
    CallAddsSaves(s, call);
    k := FileRecovers(file, s.Hard(), events, Perform(s, call).saves[1..]);
  }

  /** Every step of the system is a step of the cluster, and files and memory agree again. */
  lemma {:induction false} StepRefines(d: System, a: Action, d': System)
    requires Agreed(d) && Next(d, a, d')
    ensures Agreed(d') && Ideal.Connected(d.cluster, d'.cluster)
  {
    hide Perform, StoredState, StoreRuns.IsRun, Recoverable, Writes;
    var s := d.cluster.nodes[a.node];
    CallAddsSaves(s, a.call);
    var k := CrashFindsSave(s, a.call, d.files[a.node], a.events);
    match a
    case Finish(n, call, events) =>
      assert Ideal.Next(d.cluster, Ideal.Run(n, call), d'.cluster);
    case CutShort(n, call, events) =>
      assert Ideal.Next(d.cluster, Ideal.Crash(n, call, k), d'.cluster);
  }

  lemma NothingStored(d: System)
    requires Init(d)
    ensures Agreed(d)
  {
    assert Load(None) == Ok(map[]);
  }

  ghost function Clusters(run: seq<System>): seq<Ideal.Cluster> {
    seq(|run|, i requires 0 <= i < |run| => run[i].cluster)
  }

  lemma {:induction false} AgreedInRun(run: seq<System>, i: nat)
    requires IsRun(run) && i < |run|
    ensures Agreed(run[i])
    decreases i
  {
    hide Agreed, Next, Init;
    if i == 0 {
      NothingStored(run[0]);
    } else {
      AgreedInRun(run, i - 1);
      assert Connected(run[i - 1], run[i]);
      var a: Action :| Next(run[i - 1], a, run[i]);
      StepRefines(run[i - 1], a, run[i]);
    }
  }

  /** Refinement: the clusters of every run over files are a run over ideal storage. */
  lemma RunRefines(run: seq<System>)
    requires IsRun(run)
    ensures Ideal.IsRun(Clusters(run))
  {
    hide Agreed, Next, Ideal.Connected, Ideal.Init;
    var clusters := Clusters(run);
    forall i | 0 <= i < |clusters| - 1
      ensures Ideal.Connected(clusters[i], clusters[i + 1])
    {
      AgreedInRun(run, i);
      assert Connected(run[i], run[i + 1]);
      var a: Action :| Next(run[i], a, run[i + 1]);
      StepRefines(run[i], a, run[i + 1]);
    }
  }

  /** State Machine Safety down to the bytes: over files, with crashes in the middle of any write, any
      two nodes agree up to the smaller of their commit indexes, and no published records conflict. */
  lemma DurableSafety(run: seq<System>, i: nat, a: NodeId, j: nat, b: NodeId, e: CommittedEntry, f: CommittedEntry)
    requires IsRun(run) && i < |run| && j < |run| && a in run[i].cluster.nodes && b in run[j].cluster.nodes
    ensures var s, t := run[i].cluster.nodes[a], run[j].cluster.nodes[b];
            && Agree(s.log, t.log, Min(s.commit, t.commit))
            && (e in s.published && f in t.published && e.index == f.index ==> e == f)
  {
    hide IsRun, Ideal.IsRun;
    RunRefines(run);
    var clusters := Clusters(run);
    Safety.StateMachineSafety(clusters, i, a, j, b);
    var s, t := run[i].cluster.nodes[a], run[j].cluster.nodes[b];
    if e in s.published && f in t.published && e.index == f.index {
      Theorems.CommittedRecordsAgree(clusters, i, a, e, j, b, f);
    }
  }

  /** A restart never finds unreadable or unacceptable bytes: wherever a call is cut off, the file
      decodes to a state the constructor accepts. */
  lemma {:induction false} RestartSucceeds(run: seq<System>, i: nat, a: Action)
    requires IsRun(run) && i < |run| && Enabled(run[i], a)
    requires Writes(a.events, Perform(run[i].cluster.nodes[a.node], a.call).saves[1..])
    ensures var hard := StoredState(StoreRuns.FileAfter(run[i].files[a.node], a.events));
            hard.Ok? && Recoverable(a.node, run[i].cluster.nodes[a.node].peers, hard.value)
  {
    hide IsRun, Ideal.IsRun, Perform, StoredState, Recoverable, StoreRuns.IsRun, Writes;
    AgreedInRun(run, i);
    RunRefines(run);
    var clusters := Clusters(run);
    var k := CrashFindsSave(clusters[i].nodes[a.node], a.call, run[i].files[a.node], a.events);
    Theorems.RecoveryAccepts(clusters, i, a.node, a.call, k);
  }
}
