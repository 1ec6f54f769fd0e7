/** The worker queue of src/node/node_runtime.cpp as interleaved steps over the queue lock, the
    condition variable and the running flag: any number of workers, the ticker, and one shutdown. The
    shutdown is `stop`, which takes the lock between clearing the flag and notifying, or the failure
    path of `start`, which does not. */
module Shutdown {
  import opened RaftTypes

  /** Where a worker is. It holds the lock while Checking, Blocking or Deciding. */
  datatype Worker =
    | Locking                     // about to take the lock at the top of its loop
    | Checking                    // about to evaluate the wait predicate
    | Blocking                    // found it false, about to release the lock and sleep
    | Sleeping
    | Waking                      // woken, about to take the lock back
    | Deciding                    // found it true, about to exit or take a message
    | Sending(message: Message)
    | Exited

  /** Where the ticker is. It holds the lock while Pushing. */
  datatype Ticker =
    | Testing
    | Napping
    | Ticking
    | Enqueuing(batch: seq<Message>)
    | Pushing(batch: seq<Message>)
    | Announcing
    | Done

  /** Where the shutdown is. It holds the lock while Clearing. */
  datatype Stopper = Idle | Entering | Clearing | Notifying | Joining | Stopped

  datatype Holder = Nobody | ByWorker(i: nat) | ByTicker | ByStopper

  datatype Runtime = Runtime(
    viaStop: bool,               // the shutdown is stop, not the failure path of start
    running: bool,
    lock: Holder,
    queue: seq<Message>,
    workers: seq<Worker>,
    ticker: Ticker,
    stopper: Stopper,
    added: seq<Message>,         // everything ever queued
    taken: seq<Message>,         // everything workers took, in order
    dropped: seq<Message>,       // what stop cleared
    cut: nat)                    // how many had been taken when it did

  /** A scheduling choice. Spurious wakes a sleeper nobody notified. */
  datatype Action = Work(i: nat) | Spurious(i: nat) | Tick(batch: seq<Message>) | Shut

  function At(s: Runtime, i: nat, w: Worker): Runtime
    requires i < |s.workers|
  {
    s.(workers := s.workers[i := w])
  }

  /** notify_all. */
  function Notified(ws: seq<Worker>): (r: seq<Worker>)
    ensures |r| == |ws|
    ensures forall i | 0 <= i < |ws| :: r[i] == if ws[i].Sleeping? then Waking else ws[i]
  {
    seq(|ws|, i requires 0 <= i < |ws| => if ws[i].Sleeping? then Waking else ws[i])
  }

  function WorkerStep(s: Runtime, i: nat): Option<Runtime>
    requires i < |s.workers|
  {
    match s.workers[i]
    case Locking => if s.lock.Nobody? then Some(At(s, i, Checking).(lock := ByWorker(i))) else None
    case Waking => if s.lock.Nobody? then Some(At(s, i, Checking).(lock := ByWorker(i))) else None
    case Checking => Some(At(s, i, if !s.running || s.queue != [] then Deciding else Blocking))
    case Blocking => Some(At(s, i, Sleeping).(lock := Nobody))
    case Sleeping => None
    case Deciding =>
      if !s.running && s.queue == [] then Some(At(s, i, Exited).(lock := Nobody))
      else if s.queue == [] then None
      else Some(At(s, i, Sending(s.queue[0])).(lock := Nobody, queue := s.queue[1..], taken := s.taken + [s.queue[0]]))
    case Sending(_) => Some(At(s, i, Locking))
    case Exited => None
  }

  function TickerStep(s: Runtime, batch: seq<Message>): Option<Runtime> {
    match s.ticker
    case Testing => Some(s.(ticker := if s.running then Napping else Done))
    case Napping => Some(s.(ticker := if s.running then Ticking else Done))
    case Ticking => Some(s.(ticker := if batch == [] then Testing else Enqueuing(batch)))
    case Enqueuing(b) => if s.lock.Nobody? then Some(s.(ticker := Pushing(b), lock := ByTicker)) else None
    case Pushing(b) => Some(s.(ticker := Announcing, lock := Nobody, queue := s.queue + b, added := s.added + b))
    case Announcing => Some(s.(ticker := Testing, workers := Notified(s.workers)))
    case Done => None
  }

  predicate AllExited(s: Runtime) {
    forall i | 0 <= i < |s.workers| :: s.workers[i].Exited?
  }

  function StopperStep(s: Runtime): Option<Runtime> {
    match s.stopper
    case Idle => Some(s.(running := false, stopper := if s.viaStop then Entering else Notifying))
    case Entering => if s.lock.Nobody? then Some(s.(stopper := Clearing, lock := ByStopper)) else None
    case Clearing =>
      Some(s.(stopper := Notifying, lock := Nobody, queue := [], dropped := s.queue, cut := |s.taken|))
    case Notifying => Some(s.(stopper := Joining, workers := Notified(s.workers)))
    case Joining => if s.ticker.Done? && AllExited(s) then Some(s.(stopper := Stopped)) else None
    case Stopped => None
  }

  /** One step, if the chosen thread can move. */
  function Advance(s: Runtime, a: Action): Option<Runtime> {
    match a
    case Work(i) => if i < |s.workers| then WorkerStep(s, i) else None
    case Spurious(i) => if i < |s.workers| && s.workers[i].Sleeping? then Some(At(s, i, Waking)) else None
    case Tick(batch) => TickerStep(s, batch)
    case Shut => StopperStep(s)
  }

  function Execute(s: Runtime, run: seq<Action>): Option<Runtime>
    decreases |run|
  {
    if run == [] then Some(s)
    else
      var next := Advance(s, run[0]);
      if next.None? then None else Execute(next.value, run[1..])
  }

  /** Just started: with or without a ticker, which the failure path may not have created yet. */
  function Initial(n: nat, viaStop: bool, ticker: bool): Runtime {
    Runtime(viaStop, true, Nobody, [], seq(n, _ => Locking), if ticker then Testing else Done, Idle, [], [], [], 0)
  }

  ghost predicate Reachable(s: Runtime) {
    exists n: nat, viaStop: bool, ticker: bool, run: seq<Action> ::
      Execute(Initial(n, viaStop, ticker), run) == Some(s)
  }

  // ---- The invariant --------------------------------------------------------------------------------

  predicate Inside(w: Worker) {
    w.Checking? || w.Blocking? || w.Deciding?
  }

  /** The lock is held by exactly the thread that is inside a critical section. */
  predicate Exclusive(s: Runtime) {
    && (forall i | 0 <= i < |s.workers| :: Inside(s.workers[i]) <==> s.lock == ByWorker(i))
    && (s.ticker.Pushing? <==> s.lock == ByTicker)
    && (s.stopper.Clearing? <==> s.lock == ByStopper)
    && (s.lock.ByWorker? ==> s.lock.i < |s.workers|)
  }

  predicate FlagFollows(s: Runtime) {
    && (s.running <==> s.stopper.Idle?)
    && (!s.viaStop ==> !s.stopper.Entering? && !s.stopper.Clearing?)
  }

  predicate PastClear(s: Runtime) {
    s.stopper.Clearing? || s.stopper.Notifying? || PastNotify(s)
  }

  predicate PastNotify(s: Runtime) {
    s.stopper.Joining? || s.stopper.Stopped?
  }

  /** No worker is about to sleep once stop has had the lock, and none sleeps once it has notified. */
  predicate Roused(s: Runtime) {
    && (PastClear(s) ==> forall i | 0 <= i < |s.workers| :: !s.workers[i].Blocking?)
    && (PastNotify(s) ==> forall i | 0 <= i < |s.workers| :: !s.workers[i].Sleeping?)
  }

  /** A worker that decides to take a message finds one. */
  predicate Served(s: Runtime) {
    forall i | 0 <= i < |s.workers| :: s.workers[i].Deciding? ==> !s.running || s.queue != []
  }

  /** A worker about to sleep has seen an empty queue, and one that sleeps beside a filled queue is about
      to be notified. */
  predicate Heard(s: Runtime) {
    && (forall i | 0 <= i < |s.workers| :: s.workers[i].Blocking? ==> s.queue == [])
    && (forall i | 0 <= i < |s.workers| :: s.workers[i].Sleeping? ==> s.queue == [] || s.ticker.Announcing?)
  }

  predicate Ended(s: Runtime) {
    s.stopper.Stopped? ==> s.ticker.Done? && AllExited(s)
  }

  /** Everything queued is, in order and once, taken, dropped by stop, or still queued. */
  predicate Conserved(s: Runtime) {
    && s.cut <= |s.taken|
    && (s.dropped != [] ==> s.viaStop && PastClear(s) && !s.stopper.Clearing?)
    && s.added == s.taken[..s.cut] + s.dropped + s.taken[s.cut..] + s.queue
  }

  predicate Inv(s: Runtime) {
    && Exclusive(s) && FlagFollows(s) && Served(s) && Heard(s) && Ended(s) && Conserved(s)
    && (s.viaStop ==> Roused(s))
  }

  /** The worker's move seen from the lock: where it goes and who holds the lock then. */
  lemma WorkerMoves(s: Runtime, i: nat)
    requires i < |s.workers| && Exclusive(s) && WorkerStep(s, i).Some?
    ensures var s' := WorkerStep(s, i).value;
            && s'.workers == s.workers[i := s'.workers[i]]
            && s'.ticker == s.ticker && s'.stopper == s.stopper && s'.running == s.running && s'.viaStop == s.viaStop
            && if s.lock == ByWorker(i) || s.lock.Nobody?
               then s'.lock == if Inside(s'.workers[i]) then ByWorker(i) else Nobody
               else s'.lock == s.lock && !Inside(s'.workers[i])
  {
  }

  lemma ExclusiveWorker(s: Runtime, i: nat)
    requires i < |s.workers| && Exclusive(s) && WorkerStep(s, i).Some?
    ensures Exclusive(WorkerStep(s, i).value)
  {
    WorkerMoves(s, i);
    hide WorkerStep;
    var s' := WorkerStep(s, i).value;
    forall j | 0 <= j < |s'.workers|
      ensures Inside(s'.workers[j]) <==> s'.lock == ByWorker(j)
    {
      if j != i {
        assert s'.workers[j] == s.workers[j];
      }
    }
  }

  lemma ExclusiveTicker(s: Runtime, batch: seq<Message>)
    requires Exclusive(s) && TickerStep(s, batch).Some?
    ensures Exclusive(TickerStep(s, batch).value)
  {
  }

  lemma ExclusiveStopper(s: Runtime)
    requires Exclusive(s) && StopperStep(s).Some?
    ensures Exclusive(StopperStep(s).value)
  {
  }

  lemma ExclusiveKept(s: Runtime, a: Action)
    requires Exclusive(s) && Advance(s, a).Some?
    ensures Exclusive(Advance(s, a).value)
  {
    hide WorkerStep, TickerStep, StopperStep;
    match a
    case Work(i) => ExclusiveWorker(s, i);
    case Spurious(i) =>
    case Tick(batch) => ExclusiveTicker(s, batch);
    case Shut => ExclusiveStopper(s);
  }

  lemma FlagKept(s: Runtime, a: Action)
    requires FlagFollows(s) && Advance(s, a).Some?
    ensures FlagFollows(Advance(s, a).value)
  {
  }

  lemma ServedKept(s: Runtime, a: Action)
    requires Exclusive(s) && FlagFollows(s) && Served(s) && Advance(s, a).Some?
    ensures Served(Advance(s, a).value)
  {
  }

  lemma EndedKept(s: Runtime, a: Action)
    requires Ended(s) && Advance(s, a).Some?
    ensures Ended(Advance(s, a).value)
  {
  }

  /** With the flag cleared a worker never starts to block, and only a blocking one falls asleep. */
  lemma StaysAwake(s: Runtime, i: nat)
    requires !s.running && i < |s.workers| && WorkerStep(s, i).Some?
    ensures var s' := WorkerStep(s, i).value;
            && |s'.workers| == |s.workers|
            && (forall j | 0 <= j < |s.workers| && j != i :: s'.workers[j] == s.workers[j])
            && s'.stopper == s.stopper && !s'.workers[i].Blocking?
            && (s'.workers[i].Sleeping? ==> s.workers[i].Blocking?)
  {
  }

  lemma RousedWorker(s: Runtime, i: nat)
    requires FlagFollows(s) && Roused(s) && i < |s.workers| && WorkerStep(s, i).Some?
    ensures Roused(WorkerStep(s, i).value)
  {
    if s.running {
      assert WorkerStep(s, i).value.stopper.Idle?;
    } else {
      StaysAwake(s, i);
      hide WorkerStep;
    }
  }

  lemma RousedTicker(s: Runtime, batch: seq<Message>)
    requires Roused(s) && TickerStep(s, batch).Some?
    ensures Roused(TickerStep(s, batch).value)
  {
  }

  lemma RousedStopper(s: Runtime)
    requires Exclusive(s) && FlagFollows(s) && s.viaStop && Roused(s) && StopperStep(s).Some?
    ensures Roused(StopperStep(s).value)
  {
  }

  lemma RousedKept(s: Runtime, a: Action)
    requires Exclusive(s) && FlagFollows(s) && s.viaStop && Roused(s) && Advance(s, a).Some?
    ensures Roused(Advance(s, a).value)
  {
    hide WorkerStep, TickerStep, StopperStep, Exclusive, FlagFollows;
    match a
    case Work(i) => RousedWorker(s, i);
    case Spurious(i) =>
    case Tick(batch) => RousedTicker(s, batch);
    case Shut => RousedStopper(s);
  }

  /** How one worker's move touches the queue and sleep. */
  lemma WorkerHears(s: Runtime, i: nat)
    requires Exclusive(s) && Heard(s) && i < |s.workers| && WorkerStep(s, i).Some?
    ensures var s' := WorkerStep(s, i).value;
            && |s'.workers| == |s.workers| && s'.ticker == s.ticker
            && (forall j | 0 <= j < |s.workers| && j != i :: s'.workers[j] == s.workers[j])
            && (s.queue == [] ==> s'.queue == []) && (s'.workers[i].Blocking? ==> s'.queue == [])
            && (s'.workers[i].Sleeping? ==> s'.queue == [])
  {
  }

  lemma HeardWorker(s: Runtime, i: nat)
    requires Exclusive(s) && Heard(s) && i < |s.workers| && WorkerStep(s, i).Some?
    ensures Heard(WorkerStep(s, i).value)
  {
    WorkerHears(s, i);
    hide WorkerStep, Exclusive;
  }

  lemma HeardTicker(s: Runtime, batch: seq<Message>)
    requires Exclusive(s) && Heard(s) && TickerStep(s, batch).Some?
    ensures Heard(TickerStep(s, batch).value)
  {
    if s.ticker.Pushing? {
      assert forall i | 0 <= i < |s.workers| :: !Inside(s.workers[i]);
    }
  }

  lemma HeardStopper(s: Runtime)
    requires Heard(s) && StopperStep(s).Some?
    ensures Heard(StopperStep(s).value)
  {
  }

  lemma HeardKept(s: Runtime, a: Action)
    requires Exclusive(s) && Heard(s) && Advance(s, a).Some?
    ensures Heard(Advance(s, a).value)
  {
    hide WorkerStep, TickerStep, StopperStep, Exclusive;
    match a
    case Work(i) => HeardWorker(s, i);
    case Spurious(i) =>
    case Tick(batch) => HeardTicker(s, batch);
    case Shut => HeardStopper(s);
  }

  lemma TakesNext(taken: seq<Message>, cut: nat, dropped: seq<Message>, queue: seq<Message>)
    requires cut <= |taken| && queue != []
    ensures var more := taken + [queue[0]];
            more[..cut] + dropped + more[cut..] + queue[1..] == taken[..cut] + dropped + taken[cut..] + queue
  {
    var more := taken + [queue[0]];
    assert more[..cut] == taken[..cut] && more[cut..] == taken[cut..] + [queue[0]];
    assert queue == [queue[0]] + queue[1..];
  }

  lemma ConservedWorker(s: Runtime, i: nat)
    requires i < |s.workers| && Conserved(s) && WorkerStep(s, i).Some?
    ensures Conserved(WorkerStep(s, i).value)
  {
    if s.workers[i].Deciding? && s.queue != [] {
      TakesNext(s.taken, s.cut, s.dropped, s.queue);
      assert (s.taken + [s.queue[0]])[..s.cut] == s.taken[..s.cut];
    }
  }

  lemma ConservedTicker(s: Runtime, batch: seq<Message>)
    requires Conserved(s) && TickerStep(s, batch).Some?
    ensures Conserved(TickerStep(s, batch).value)
  {
    var s' := TickerStep(s, batch).value;
    if s.ticker.Pushing? {
      var before := s.taken[..s.cut] + s.dropped + s.taken[s.cut..];
      assert (before + s.queue) + s.ticker.batch == before + (s.queue + s.ticker.batch);
    }
  }

  lemma ConservedStopper(s: Runtime)
    requires Conserved(s) && FlagFollows(s) && StopperStep(s).Some?
    ensures Conserved(StopperStep(s).value)
  {
    if s.stopper.Clearing? {
      assert s.taken[..|s.taken|] == s.taken == s.taken[..s.cut] + s.taken[s.cut..];
      assert s.added == s.taken + s.queue;
    }
  }

  lemma ConservedKept(s: Runtime, a: Action)
    requires Conserved(s) && FlagFollows(s) && Advance(s, a).Some?
    ensures Conserved(Advance(s, a).value)
  {
    hide WorkerStep, TickerStep, StopperStep, FlagFollows;
    match a
    case Work(i) => ConservedWorker(s, i);
    case Spurious(i) =>
    case Tick(batch) => ConservedTicker(s, batch);
    case Shut => ConservedStopper(s);
  }

  lemma ViaStopKept(s: Runtime, a: Action)
    requires Advance(s, a).Some?
    ensures Advance(s, a).value.viaStop == s.viaStop && (Advance(s, a).value.running ==> s.running)
  {
    match a
    case Work(i) =>
    case Spurious(i) =>
    case Tick(batch) =>
    case Shut =>
  }

  lemma InvKept(s: Runtime, a: Action)
    requires Inv(s) && Advance(s, a).Some?
    ensures Inv(Advance(s, a).value) && Advance(s, a).value.viaStop == s.viaStop
  {
    ViaStopKept(s, a);
    hide Advance, Exclusive, FlagFollows, Served, Heard, Ended, Conserved, Roused;
    ExclusiveKept(s, a);
    FlagKept(s, a);
    ServedKept(s, a);
    HeardKept(s, a);
    EndedKept(s, a);
    ConservedKept(s, a);
    if s.viaStop {
      RousedKept(s, a);
    }
  }

  lemma {:induction false} InvThroughout(s: Runtime, run: seq<Action>)
    requires Inv(s) && Execute(s, run).Some?
    ensures Inv(Execute(s, run).value) && Execute(s, run).value.viaStop == s.viaStop
    decreases |run|
  {
    hide Advance, Inv;
    if run != [] {
      InvKept(s, run[0]);
      InvThroughout(Advance(s, run[0]).value, run[1..]);
    }
  }

  lemma ReachableInv(s: Runtime)
    requires Reachable(s)
    ensures Inv(s)
  {
    var n: nat, viaStop: bool, ticker: bool, run: seq<Action> :| Execute(Initial(n, viaStop, ticker), run) == Some(s);
    assert Inv(Initial(n, viaStop, ticker));
    InvThroughout(Initial(n, viaStop, ticker), run);
  }

  // ---- Safety ---------------------------------------------------------------------------------------

  /** No lost wakeup: in every interleaving, once stop has notified, no worker sleeps or is about to. */
  lemma NoLostWakeup(s: Runtime, i: nat)
    requires Reachable(s) && s.viaStop && PastNotify(s) && i < |s.workers|
    ensures !s.workers[i].Sleeping? && !s.workers[i].Blocking?
  {
    ReachableInv(s);
  }

  /** A worker that gets past its exit test always finds a message to take. */
  lemma NeverTakesFromEmpty(s: Runtime, i: nat)
    requires Reachable(s) && i < |s.workers| && s.workers[i].Deciding?
    ensures WorkerStep(s, i).Some?
    ensures s.running ==> s.queue != []
  {
    ReachableInv(s);
  }

  /** No message is missed: in every interleaving, before and during a shutdown, a worker that sleeps
      while the queue holds a message has the notification still on its way. */
  lemma NoMissedMessage(s: Runtime, i: nat)
    requires Reachable(s) && i < |s.workers| && s.workers[i].Sleeping? && s.queue != []
    ensures s.ticker.Announcing?
  {
    ReachableInv(s);
  }

  /** Everything ever queued was taken by one worker, dropped by stop or is still queued, once and in
      the order it was queued; without stop nothing is dropped. */
  lemma EachTakenAtMostOnce(s: Runtime)
    requires Reachable(s)
    ensures s.cut <= |s.taken| && s.added == s.taken[..s.cut] + s.dropped + s.taken[s.cut..] + s.queue
    ensures multiset(s.added) == multiset(s.taken) + multiset(s.dropped) + multiset(s.queue)
    ensures s.running || !s.viaStop ==> s.added == s.taken + s.queue
  {
    ReachableInv(s);
    assert s.taken == s.taken[..s.cut] + s.taken[s.cut..];
    assert multiset(s.taken) == multiset(s.taken[..s.cut]) + multiset(s.taken[s.cut..]);
    if s.dropped == [] {
      assert s.taken[..s.cut] + [] + s.taken[s.cut..] == s.taken;
    }
  }

  // ---- Termination ----------------------------------------------------------------------------------

  /** Steps left before a worker exits or takes a message, once the flag is cleared. */
  function WorkerRank(w: Worker): nat {
    match w
    case Blocking => 9
    case Sleeping => 8
    case Sending(_) => 8
    case Waking => 7
    case Locking => 7
    case Checking => 6
    case Deciding => 5
    case Exited => 0
  }

  function WorkersRank(ws: seq<Worker>): nat {
    if ws == [] then 0 else WorkerRank(ws[0]) + WorkersRank(ws[1..])
  }

  function TickerRank(t: Ticker): nat {
    match t
    case Ticking => 5
    case Enqueuing(_) => 4
    case Pushing(_) => 3
    case Announcing => 2
    case Testing => 1
    case Napping => 1
    case Done => 0
  }

  function StopperRank(t: Stopper): nat {
    match t
    case Idle => 5
    case Entering => 4
    case Clearing => 3
    case Notifying => 2
    case Joining => 1
    case Stopped => 0
  }

  function Rank(s: Runtime): nat {
    WorkersRank(s.workers) + StopperRank(s.stopper)
  }

  lemma {:induction false} RankAt(ws: seq<Worker>, i: nat, w: Worker)
    requires i < |ws|
    ensures WorkersRank(ws[i := w]) == WorkersRank(ws) - WorkerRank(ws[i]) + WorkerRank(w)
  {
    hide WorkerRank;
    if i == 0 {
      assert ws[0 := w][1..] == ws[1..];
    } else {
      RankAt(ws[1..], i - 1, w);
      assert ws[i := w][1..] == ws[1..][i - 1 := w];
    }
  }

  lemma {:induction false} RankNotified(ws: seq<Worker>)
    ensures WorkersRank(Notified(ws)) <= WorkersRank(ws)
  {
    if ws != [] {
      RankNotified(ws[1..]);
      assert Notified(ws)[1..] == Notified(ws[1..]);
    }
  }

  /** Less work left: the ticker first, then the queue, then everybody's position. */
  predicate Less(s': Runtime, s: Runtime) {
    || TickerRank(s'.ticker) < TickerRank(s.ticker)
    || (s'.ticker == s.ticker && |s'.queue| < |s.queue|)
    || (s'.ticker == s.ticker && |s'.queue| == |s.queue| && Rank(s') < Rank(s))
  }

  /** A worker's move lowers its rank, or takes a message from the queue. */
  lemma WorkerDescends(s: Runtime, i: nat)
    requires !s.running && i < |s.workers| && WorkerStep(s, i).Some?
    ensures var s' := WorkerStep(s, i).value;
            && s'.workers == s.workers[i := s'.workers[i]] && s'.ticker == s.ticker && s'.stopper == s.stopper
            && (|s'.queue| < |s.queue| || (s'.queue == s.queue && WorkerRank(s'.workers[i]) < WorkerRank(s.workers[i])))
  {
  }

  lemma {:induction false} WorkerRunsOut(s: Runtime, i: nat)
    requires !s.running && i < |s.workers| && WorkerStep(s, i).Some?
    ensures Less(WorkerStep(s, i).value, s)
  {
    WorkerDescends(s, i);
    hide WorkersRank, WorkerStep, WorkerRank;
    RankAt(s.workers, i, WorkerStep(s, i).value.workers[i]);
  }

  lemma TickerRunsOut(s: Runtime, batch: seq<Message>)
    requires !s.running && TickerStep(s, batch).Some?
    ensures Less(TickerStep(s, batch).value, s)
  {
    hide Rank;
  }

  lemma {:induction false} StopperRunsOut(s: Runtime)
    requires !s.running && StopperStep(s).Some?
    ensures Less(StopperStep(s).value, s)
  {
    hide WorkersRank;
    RankNotified(s.workers);
  }

  /** Once the flag is cleared every step of every thread leaves less to do. */
  lemma {:induction false} StepsRunOut(s: Runtime, a: Action)
    requires !s.running && Advance(s, a).Some?
    ensures Less(Advance(s, a).value, s)
  {
    hide WorkersRank, WorkerStep, TickerStep, StopperStep;
    match a
    case Work(i) => WorkerRunsOut(s, i);
    case Spurious(i) => RankAt(s.workers, i, Waking);
    case Tick(batch) => TickerRunsOut(s, batch);
    case Shut => StopperRunsOut(s);
  }

  /** stop has returned: the ticker and every worker are gone. */
  predicate Finished(s: Runtime) {
    s.stopper.Stopped? && s.ticker.Done? && AllExited(s)
  }

  /** The thread holding the lock can always move. */
  lemma HolderMoves(s: Runtime) returns (a: Action)
    requires Inv(s) && !s.lock.Nobody?
    ensures !a.Spurious? && Advance(s, a).Some?
  {
    hide Conserved, Roused, Ended;
    match s.lock
    case ByWorker(i) =>
      a := Work(i);
      assert Inside(s.workers[i]);
    case ByTicker => a := Tick([]);
    case ByStopper => a := Shut;
  }

  lemma SomeoneMoves(s: Runtime) returns (a: Action)
    requires Inv(s) && s.viaStop && !s.stopper.Stopped?
    ensures !a.Spurious? && Advance(s, a).Some?
  {
    hide Conserved;
    if !s.lock.Nobody? {
      a := HolderMoves(s);
    } else if !s.ticker.Done? {
      a := Tick([]);
    } else if !s.stopper.Joining? || AllExited(s) {
      a := Shut;
    } else {
      var i :| 0 <= i < |s.workers| && !s.workers[i].Exited?;
      a := Work(i);
    }
  }

  /** stop cannot deadlock: until it has returned, some thread can move, without a spurious wakeup. */
  lemma NoDeadlock(s: Runtime)
    requires Reachable(s) && s.viaStop && !s.stopper.Stopped?
    ensures exists a: Action :: !a.Spurious? && Advance(s, a).Some?
  {
    hide Reachable, Inv, Advance;
    ReachableInv(s);
    var a := SomeoneMoves(s);
  }

  /** At each position of a schedule some thread moves, unless all are finished. */
  ghost predicate MovesAt(schedule: nat -> Runtime, k: nat) {
    Finished(schedule(k)) || exists a: Action :: Advance(schedule(k), a) == Some(schedule(k + 1))
  }

  lemma {:induction false} FinishesFrom(schedule: nat -> Runtime, k: nat) returns (end: nat)
    requires Inv(schedule(k)) && !schedule(k).running
    requires forall j: nat :: MovesAt(schedule, j)
    ensures end >= k && Finished(schedule(end))
    decreases TickerRank(schedule(k).ticker), |schedule(k).queue|, Rank(schedule(k))
  {
    end := k;
    if !Finished(schedule(k)) {
      assert MovesAt(schedule, k);
      var a: Action :| Advance(schedule(k), a) == Some(schedule(k + 1));
      InvKept(schedule(k), a);
      ViaStopKept(schedule(k), a);
      StepsRunOut(schedule(k), a);
      hide Advance, Inv, Finished, Rank;
      end := FinishesFrom(schedule, k + 1);
    }
  }

  /** From the moment the flag is cleared, however the threads are scheduled and whatever the ticker's
      last batch, every worker exits and stop returns after finitely many steps. */
  lemma ShutdownFinishes(schedule: nat -> Runtime)
    requires Reachable(schedule(0)) && schedule(0).viaStop && !schedule(0).running
    requires forall j: nat :: MovesAt(schedule, j)
    ensures exists end: nat :: Finished(schedule(end))
  {
    hide Finished, Inv, Reachable;
    ReachableInv(schedule(0));
    var end := FinishesFrom(schedule, 0);
  }

  // ---- The failure path of start --------------------------------------------------------------------

  /** Worker i sleeps although the one notification has gone out and nobody is left to send another. */
  predicate Abandoned(s: Runtime, i: nat) {
    && !s.running && s.stopper.Joining? && s.ticker.Done?
    && i < |s.workers| && s.workers[i].Sleeping?
  }

  /** A worker tests the flag, the failure path clears it and notifies, then the worker sleeps. */
  const MISSED_NOTIFICATION: seq<Action> := [Work(0), Work(0), Shut, Shut, Work(0)]

  lemma {:induction false} FailurePathAbandons(n: nat)
    requires n > 0
    ensures var end := Execute(Initial(n, false, false), MISSED_NOTIFICATION);
            end.Some? && Abandoned(end.value, 0)
  {
  }

  /** An abandoned worker stays asleep, and the join of the failure path never returns, in every
      continuation that does not happen to wake it spuriously. */
  lemma {:induction false} AbandonedForGood(s: Runtime, i: nat, run: seq<Action>)
    requires Abandoned(s, i) && Execute(s, run).Some? && Spurious(i) !in run
    ensures Abandoned(Execute(s, run).value, i)
    decreases |run|
  {
    if run != [] {
      AbandonedStep(s, i, run[0]);
      hide Advance, Abandoned;
      AbandonedForGood(Advance(s, run[0]).value, i, run[1..]);
    }
  }

  lemma AbandonedStep(s: Runtime, i: nat, a: Action)
    requires Abandoned(s, i) && Advance(s, a).Some? && a != Spurious(i)
    ensures Abandoned(Advance(s, a).value, i)
  {
    match a
    case Work(j) =>
    case Spurious(j) =>
    case Tick(batch) =>
    case Shut =>
  }

  /** Some worker sleeps after the shutdown has notified. */
  predicate Lost(s: Runtime) {
    PastNotify(s) && exists i :: 0 <= i < |s.workers| && s.workers[i].Sleeping?
  }

  ghost predicate CanLose(n: nat, viaStop: bool) {
    exists ticker: bool, run: seq<Action> ::
      var end := Execute(Initial(n, viaStop, ticker), run); end.Some? && Lost(end.value)
  }

  /** A wakeup can be lost exactly on the failure path of start, as soon as there is a worker. */
  lemma LostWakeupExactly(n: nat, viaStop: bool)
    ensures CanLose(n, viaStop) <==> n > 0 && !viaStop
  {
    hide Execute, Advance, Inv;
    if CanLose(n, viaStop) {
      var ticker: bool, run: seq<Action> :|
        var end := Execute(Initial(n, viaStop, ticker), run); end.Some? && Lost(end.value);
      LostOnlyThere(n, viaStop, ticker, run);
    }
    if n > 0 && !viaStop {
      FailurePathAbandons(n);
      var end := Execute(Initial(n, false, false), MISSED_NOTIFICATION);
      assert Lost(end.value);
    }
  }

  lemma LostOnlyThere(n: nat, viaStop: bool, ticker: bool, run: seq<Action>)
    requires var end := Execute(Initial(n, viaStop, ticker), run); end.Some? && Lost(end.value)
    ensures n > 0 && !viaStop
  {
    var end := Execute(Initial(n, viaStop, ticker), run).value;
    InvStart(n, viaStop, ticker);
    InvThroughout(Initial(n, viaStop, ticker), run);
    SizeKept(Initial(n, viaStop, ticker), run);
    hide Execute;
    assert viaStop ==> Roused(end);
  }

  lemma InvStart(n: nat, viaStop: bool, ticker: bool)
    ensures Inv(Initial(n, viaStop, ticker))
  {
  }

  lemma SizeStep(s: Runtime, a: Action)
    requires Advance(s, a).Some?
    ensures |Advance(s, a).value.workers| == |s.workers|
  {
    match a
    case Work(i) =>
    case Spurious(i) =>
    case Tick(batch) =>
    case Shut =>
  }

  lemma {:induction false} SizeKept(s: Runtime, run: seq<Action>)
    requires Execute(s, run).Some?
    ensures |Execute(s, run).value.workers| == |s.workers|
    decreases |run|
  {
    if run != [] {
      SizeStep(s, run[0]);
      hide Advance;
      SizeKept(Advance(s, run[0]).value, run[1..]);
    }
  }

  // ---- A message on its way ---------------------------------------------------------------------

  /** A worker finds the queue empty and sleeps. */
  const FALLS_ASLEEP: seq<Action> := [Work(0), Work(0), Work(0)]

  /** The ticker queues one message and notifies. */
  function Queues(m: Message): seq<Action> {
    [Tick([]), Tick([]), Tick([m]), Tick([]), Tick([]), Tick([])]
  }

  /** The worker wakes and takes it. */
  const TAKES: seq<Action> := [Work(0), Work(0), Work(0)]

  function Quiet(n: nat, w: Worker): Runtime
    requires n > 0
  {
    At(Initial(n, true, true), 0, w)
  }

  lemma {:induction false} ThreeSteps(s: Runtime, a: Action, s1: Runtime, b: Action, s2: Runtime,
                                      c: Action, s3: Runtime)
    requires Advance(s, a) == Some(s1) && Advance(s1, b) == Some(s2) && Advance(s2, c) == Some(s3)
    ensures Execute(s, [a, b, c]) == Some(s3)
  {
    hide Advance;
    assert Execute(s3, []) == Some(s3);
    assert [a, b, c][1..] == [b, c] && [b, c][1..] == [c] && [c][1..] == [];
    assert Execute(s2, [c]) == Some(s3);
    assert Execute(s1, [b, c]) == Some(s3);
  }

  lemma Overwritten(n: nat, w: Worker, w': Worker)
    requires n > 0
    ensures Quiet(n, w).workers[0 := w'] == Quiet(n, w').workers
  {
  }

  lemma {:induction false} FallsAsleep(n: nat)
    requires n > 0
    ensures Execute(Initial(n, true, true), FALLS_ASLEEP) == Some(Quiet(n, Sleeping))
  {
    Overwritten(n, Checking, Blocking);
    Overwritten(n, Blocking, Sleeping);
    ThreeSteps(Initial(n, true, true), Work(0), Quiet(n, Checking).(lock := ByWorker(0)),
               Work(0), Quiet(n, Blocking).(lock := ByWorker(0)), Work(0), Quiet(n, Sleeping));
  }

  lemma {:induction false} TickerDelivers(n: nat, m: Message)
    requires n > 0
    ensures Execute(Quiet(n, Sleeping), Queues(m)) == Some(Quiet(n, Waking).(queue := [m], added := [m]))
  {
    var s, e := Quiet(n, Sleeping), Quiet(n, Sleeping).(ticker := Enqueuing([m]));
    assert [] + [m] == [m];
    assert Notified(s.workers) == Quiet(n, Waking).workers;
    ThreeSteps(s, Tick([]), s.(ticker := Napping), Tick([]), s.(ticker := Ticking), Tick([m]), e);
    ThreeSteps(e, Tick([]), e.(ticker := Pushing([m]), lock := ByTicker),
               Tick([]), e.(ticker := Announcing, queue := [m], added := [m]),
               Tick([]), Quiet(n, Waking).(queue := [m], added := [m]));
    ExecuteJoin(s, [Tick([]), Tick([]), Tick([m])], [Tick([]), Tick([]), Tick([])]);
    assert Queues(m) == [Tick([]), Tick([]), Tick([m])] + [Tick([]), Tick([]), Tick([])];
  }

  lemma {:induction false} WorkerTakes(n: nat, m: Message)
    requires n > 0
    ensures Execute(Quiet(n, Waking).(queue := [m], added := [m]), TAKES) ==
            Some(Quiet(n, Sending(m)).(added := [m], taken := [m]))
  {
    Overwritten(n, Waking, Checking);
    Overwritten(n, Checking, Deciding);
    Overwritten(n, Deciding, Sending(m));
    assert [m][1..] == [] && [] + [m] == [m];
    ThreeSteps(Quiet(n, Waking).(queue := [m], added := [m]),
               Work(0), Quiet(n, Checking).(lock := ByWorker(0), queue := [m], added := [m]),
               Work(0), Quiet(n, Deciding).(lock := ByWorker(0), queue := [m], added := [m]),
               Work(0), Quiet(n, Sending(m)).(added := [m], taken := [m]));
  }

  lemma {:induction false} ExecuteJoin(s: Runtime, first: seq<Action>, rest: seq<Action>)
    requires Execute(s, first).Some?
    ensures Execute(s, first + rest) == Execute(Execute(s, first).value, rest)
    decreases |first|
  {
    hide Advance;
    if first == [] {
      assert first + rest == rest;
    } else {
      ExecuteJoin(Advance(s, first[0]).value, first[1..], rest);
      assert (first + rest)[1..] == first[1..] + rest;
    }
  }

  /** The queue works: there is a schedule in which a sleeping worker is woken for a message of the ticker
      and sends it. */
  lemma {:induction false} MessageDelivered(n: nat, m: Message)
    requires n > 0
    ensures Execute(Initial(n, true, true), FALLS_ASLEEP + Queues(m) + TAKES) ==
            Some(Quiet(n, Sending(m)).(added := [m], taken := [m]))
  {
    FallsAsleep(n);
    TickerDelivers(n, m);
    WorkerTakes(n, m);
    hide Execute, Quiet, Queues;
    ExecuteJoin(Initial(n, true, true), FALLS_ASLEEP, Queues(m));
    ExecuteJoin(Initial(n, true, true), FALLS_ASLEEP + Queues(m), TAKES);
  }
}
