/** Whole lives of the key-value store's file: puts and erases that complete, fail or are cut off by a
    crash, with the store reopened from the file whenever the process starts again. */
module StoreRuns {
  import opened RaftTypes
  import opened ByteOrder
  import opened SnapshotFormat

  datatype Operation = Put(key: Bytes, value: Bytes) | Erase(key: Bytes)

  datatype Outcome = Completed | Failed | Crashed

  /** One operation, how it ended for its caller, and the snapshot file it left. */
  datatype Event = Event(operation: Operation, outcome: Outcome, after: Option<Bytes>)

  function Apply(op: Operation, m: EntryMap): EntryMap {
    match op
    case Put(k, v) => m[k := v]
    case Erase(k) => m - {k}
  }

  /** The file is a snapshot of the map in some iteration order. */
  ghost predicate Holds(file: Option<Bytes>, m: EntryMap) {
    && Storable(m)
    && exists order: seq<Bytes> ::
         Enumerates(order, m) && (forall k | k in order :: k in m) && file == Some(SnapshotBytes(order, m))
  }

  /** What an operation on the map loaded from a file may do to the file. */
  ghost predicate Happens(before: Option<Bytes>, op: Operation, outcome: Outcome, after: Option<Bytes>) {
    && Load(before).Ok?
    && var m := Load(before).value;
       match outcome
       case Completed => Holds(after, Apply(op, m)) || (after == before && op.Erase? && op.key !in m)
       case Failed => after == before
       case Crashed => after == before || Holds(after, Apply(op, m))
  }

  function FileAfter(start: Option<Bytes>, events: seq<Event>): Option<Bytes> {
    if events == [] then start else events[|events| - 1].after
  }

  ghost predicate IsRun(start: Option<Bytes>, events: seq<Event>) {
    Load(start).Ok? &&
    forall i | 0 <= i < |events| ::
      Happens(FileAfter(start, events[..i]), events[i].operation, events[i].outcome, events[i].after)
  }

  lemma HoldsLoads(file: Option<Bytes>, m: EntryMap)
    requires Holds(file, m)
    ensures Load(file) == Ok(m)
  {
    hide Parse, Storable, SnapshotBytes, Enumerates;
    var order: seq<Bytes> :|
      Enumerates(order, m) && (forall k | k in order :: k in m) && file == Some(SnapshotBytes(order, m));
    ParseSnapshot(order, m);
  }

  /** After an operation the file loads to the map before it or to the map the operation makes, as its
      outcome says. */
  lemma Effect(before: Option<Bytes>, op: Operation, outcome: Outcome, after: Option<Bytes>) returns (applied: bool)
    requires Happens(before, op, outcome, after)
    ensures outcome.Completed? ==> applied
    ensures outcome.Failed? ==> !applied
    ensures Load(after) == Ok(if applied then Apply(op, Load(before).value) else Load(before).value)
  {
    hide Load;
    var m := Load(before).value;
    applied := !outcome.Failed? && (outcome.Completed? || Load(after) == Ok(Apply(op, m)));
    if after != before {
      HoldsLoads(after, Apply(op, m));
    } else if outcome.Completed? {
      if Holds(after, Apply(op, m)) {
        HoldsLoads(after, Apply(op, m));
      } else {
        assert Apply(op, m) == m;
      }
    }
  }

  function ApplyChosen(m: EntryMap, events: seq<Event>, chosen: seq<bool>): EntryMap
    requires |chosen| == |events|
  {
    if events == [] then m
    else
      var n := |events| - 1;
      var before := ApplyChosen(m, events[..n], chosen[..n]);
      if chosen[n] then Apply(events[n].operation, before) else before
  }

  /** The completed operations are chosen and the failed ones are not. */
  predicate Allowed(events: seq<Event>, chosen: seq<bool>) {
    && |chosen| == |events|
    && (forall i | 0 <= i < |events| :: events[i].outcome.Completed? ==> chosen[i])
    && (forall i | 0 <= i < |events| :: events[i].outcome.Failed? ==> !chosen[i])
  }

  lemma AllowOneMore(events: seq<Event>, chosen: seq<bool>, one: bool)
    requires events != [] && Allowed(events[..|events| - 1], chosen)
    requires events[|events| - 1].outcome.Completed? ==> one
    requires events[|events| - 1].outcome.Failed? ==> !one
    ensures Allowed(events, chosen + [one])
  {
    var n := |events| - 1;
    forall i | 0 <= i < n
      ensures (events[i].outcome.Completed? ==> chosen[i]) && (events[i].outcome.Failed? ==> !chosen[i])
    {
      assert events[..n][i] == events[i];
    }
  }

  lemma {:induction false} ChooseOneMore(m: EntryMap, events: seq<Event>, chosen: seq<bool>, one: bool)
    requires events != [] && |chosen| == |events| - 1
    ensures var before := ApplyChosen(m, events[..|chosen|], chosen);
            ApplyChosen(m, events, chosen + [one]) == if one then Apply(events[|chosen|].operation, before) else before
  {
    hide Apply;
    assert (chosen + [one])[..|chosen|] == chosen;
  }

  lemma RunFront(start: Option<Bytes>, events: seq<Event>)
    requires IsRun(start, events) && events != []
    ensures IsRun(start, events[..|events| - 1])
    ensures var n := |events| - 1;
            Happens(FileAfter(start, events[..n]), events[n].operation, events[n].outcome, events[n].after)
  {
    hide Happens;
    var front := events[..|events| - 1];
    forall i | 0 <= i < |front|
      ensures Happens(FileAfter(start, front[..i]), front[i].operation, front[i].outcome, front[i].after)
    {
      assert front[..i] == events[..i];
    }
  }

  /** Whatever fails or crashes, reloading finds exactly the effect of some of the operations, in
      order: all the completed ones, none of the failed ones, and of the crashed ones those whose
      rename happened. */
  lemma {:induction false} RunReloads(start: Option<Bytes>, events: seq<Event>) returns (chosen: seq<bool>)
    requires IsRun(start, events)
    ensures Allowed(events, chosen)
    ensures Load(FileAfter(start, events)) == Ok(ApplyChosen(Load(start).value, events, chosen))
    decreases |events|
  {
    if events == [] {
      chosen := [];
    } else {
      var n := |events| - 1;
      RunFront(start, events);
      assert Load(start).Ok?;
      hide IsRun, Load, Happens;
      var front := RunReloads(start, events[..n]);
      var applied := Effect(FileAfter(start, events[..n]), events[n].operation, events[n].outcome, events[n].after);
      chosen := front + [applied];
      AllowOneMore(events, front, applied);
      ChooseOneMore(Load(start).value, events, front, applied);
      hide ApplyChosen, Apply, Allowed;
    }
  }

  function Lookup(m: EntryMap, k: Bytes): Option<Bytes> {
    if k in m then Some(m[k]) else None
  }

  /** What a key is bound to once the operation has been applied. */
  function Bound(op: Operation): Option<Bytes> {
    if op.Put? then Some(op.value) else None
  }

  /** From position i on, no operation on the key had any chance of an effect. */
  predicate Quiet(events: seq<Event>, i: nat, k: Bytes) {
    forall j | i <= j < |events| :: events[j].operation.key == k ==> events[j].outcome.Failed?
  }

  lemma {:induction false} QuietKeeps(m: EntryMap, events: seq<Event>, chosen: seq<bool>, i: nat, k: Bytes)
    requires Allowed(events, chosen) && i <= |events| && Quiet(events, i, k)
    ensures Lookup(ApplyChosen(m, events, chosen), k) == Lookup(ApplyChosen(m, events[..i], chosen[..i]), k)
    decreases |events|
  {
    if i == |events| {
      assert events[..i] == events && chosen[..i] == chosen;
    } else {
      var n := |events| - 1;
      QuietKeeps(m, events[..n], chosen[..n], i, k);
      assert events[..n][..i] == events[..i] && chosen[..n][..i] == chosen[..i];
      assert events[n].operation.key == k ==> !chosen[n];
    }
  }

  /** An acknowledged put or erase is what every later start finds, however many later operations
      completed, failed or crashed, until another operation on the same key may have taken effect. */
  lemma AcknowledgedSurvives(start: Option<Bytes>, events: seq<Event>, i: nat)
    requires IsRun(start, events) && i < |events| && events[i].outcome.Completed?
    requires Quiet(events, i + 1, events[i].operation.key)
    ensures Load(FileAfter(start, events)).Ok?
    ensures Lookup(Load(FileAfter(start, events)).value, events[i].operation.key) == Bound(events[i].operation)
  {
    hide Load;
    var k := events[i].operation.key;
    var m := Load(start).value;
    hide IsRun;
    var chosen := RunReloads(start, events);
    QuietKeeps(m, events, chosen, i + 1, k);
    var upTo, chose := events[..i + 1], chosen[..i + 1];
    assert upTo[..i] == events[..i] && chose[..i] == chosen[..i];
    assert ApplyChosen(m, upTo, chose) == Apply(events[i].operation, ApplyChosen(m, events[..i], chosen[..i]));
  }

  /** A key nobody managed to change still has the value it started with. */
  lemma UntouchedKept(start: Option<Bytes>, events: seq<Event>, k: Bytes)
    requires IsRun(start, events) && Quiet(events, 0, k)
    ensures Load(FileAfter(start, events)).Ok?
    ensures Lookup(Load(FileAfter(start, events)).value, k) == Lookup(Load(start).value, k)
  {
    hide Load, Happens;
    var m := Load(start).value;
    var chosen := RunReloads(start, events);
    QuietKeeps(m, events, chosen, 0, k);
  }
}
