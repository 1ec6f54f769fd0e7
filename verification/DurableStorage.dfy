/** `DurableRaftStorage` of src/node/node_runtime.cpp: the encoded Raft state kept under one key of a
    durable key-value store. */
module DurableStorage {
  import opened RaftTypes
  import opened ByteOrder
  import opened SnapshotFormat
  import StateCodec
  import StoreRuns
  import Kv = KvStore

  /** "raft-hard-state" */
  const KEY: Bytes := [114, 97, 102, 116, 45, 104, 97, 114, 100, 45, 115, 116, 97, 116, 101]

  const INITIAL_STATE := HardState(0, None, [])

  function StateIn(m: EntryMap): Result<HardState> {
    if KEY in m then StateCodec.Decode(m[KEY]) else Ok(INITIAL_STATE)
  }

  /** What a node started on this file recovers. */
  function StoredState(file: Option<Bytes>): Result<HardState> {
    match Load(file)
    case Err(e) => Err(e)
    case Ok(m) => StateIn(m)
  }

  // ---- Which states fit -----------------------------------------------------------------------------

  function LogSize(log: seq<LogEntry>): nat {
    if log == [] then 0 else 17 + |log[0].command| + LogSize(log[1..])
  }

  /** The size of an encoded state, from its parts. */
  function EncodedSize(s: HardState): nat {
    26 + (if s.vote.Some? then 8 else 0) + LogSize(s.log)
  }

  lemma {:induction false} EntriesSize(log: seq<LogEntry>, flags: seq<byte>)
    requires |flags| == |log|
    ensures |StateCodec.EntriesBytes(log, flags)| == LogSize(log)
  {
    hide U64;
    if log != [] {
      EntriesSize(log[1..], flags[1..]);
      U64Size(log[0].term);
      U64Size(|log[0].command|);
    }
  }

  lemma U64Size(v: nat)
    ensures |U64(v)| == 8
  {
    LittleEndianSize(v, 8);
  }

  lemma {:induction false} EncodeSize(s: HardState)
    ensures |StateCodec.Encode(s)| == EncodedSize(s)
  {
    hide U64, StateCodec.EntriesBytes, LogSize;
    U64Size(s.term);
    U64Size(|s.log|);
    if s.vote.Some? {
      U64Size(s.vote.value);
    }
    EntriesSize(s.log, StateCodec.Flags(s.log));
  }

  /** The states that can be stored: the field limit of the store applies to the whole encoded state. */
  predicate Savable(s: HardState) {
    StateCodec.Encodable(s) && EncodedSize(s) <= MAX_FIELD_BYTES
  }

  /** The store has a place for the key. */
  predicate HasRoom(m: EntryMap) {
    KEY in m || |m| < MAX_ENTRIES
  }

  lemma StorableWith(m: EntryMap, s: HardState)
    requires Storable(m) && HasRoom(m)
    ensures Storable(m[KEY := StateCodec.Encode(s)]) <==> EncodedSize(s) <= MAX_FIELD_BYTES
  {
    hide StateCodec.Encode, EncodedSize, FieldsFit;
    EncodeSize(s);
    SizeWith(m, StateCodec.Encode(s));
    FieldsWith(m, StateCodec.Encode(s));
  }

  lemma SizeWith(m: EntryMap, v: Bytes)
    requires HasRoom(m) && |m| <= MAX_ENTRIES
    ensures |m[KEY := v]| <= MAX_ENTRIES
  {
    var more := m[KEY := v];
    assert more.Keys == m.Keys + {KEY};
    assert |more.Keys| == |more| && |m.Keys| == |m|;
  }

  lemma FieldsWith(m: EntryMap, v: Bytes)
    requires FieldsFit(m)
    ensures FieldsFit(m[KEY := v]) <==> |v| <= MAX_FIELD_BYTES
  {
    assert KEY in m[KEY := v];
  }

  /** A log entry the encoder accepts but no save can store: the limits disagree. */
  lemma {:induction false} LargestCommandNotSavable(s: HardState, i: nat)
    requires i < |s.log| && |s.log[i].command| == StateCodec.MAX_COMMAND_BYTES
    ensures !Savable(s)
  {
    LogSizeAt(s.log, i);
  }

  lemma {:induction false} LogSizeAt(log: seq<LogEntry>, i: nat)
    requires i < |log|
    ensures LogSize(log) >= 17 + |log[i].command|
  {
    if i > 0 {
      LogSizeAt(log[1..], i - 1);
    }
  }

  lemma EncodableNotSavable() returns (s: HardState)
    ensures StateCodec.Encodable(s) && !Savable(s)
  {
    var command: seq<byte> := seq(StateCodec.MAX_COMMAND_BYTES, _ => 0);
    s := HardState(1, None, [LogEntry(1, command, false)]);
    LargestCommandNotSavable(s, 0);
  }

  // ---- The storage ----------------------------------------------------------------------------------

  /** In every new state of the files a restart recovers the old state or the new one. */
  ghost predicate RecoversEither(before: seq<Kv.Disk>, after: seq<Kv.Disk>, was: Result<HardState>, s: HardState) {
    && before <= after
    && forall i | |before| <= i < |after| ::
         StoredState(after[i].main) == was || StoredState(after[i].main) == Ok(s)
  }

  lemma SavedDecodes(m: EntryMap, s: HardState)
    requires StateCodec.Encodable(s)
    ensures StateIn(m[KEY := StateCodec.Encode(s)]) == Ok(s)
  {
    hide StateCodec.Encode, StateCodec.Decode, StateCodec.Encodable;
    StateCodec.DecodeEncode(s);
  }

  lemma EitherRecovers(before: seq<Kv.Disk>, after: seq<Kv.Disk>, file: Option<Bytes>, m: EntryMap, s: HardState)
    requires Load(file) == Ok(m) && StateCodec.Encodable(s)
    requires Kv.LoadsEither(before, after, m, m[KEY := StateCodec.Encode(s)])
    ensures RecoversEither(before, after, StoredState(file), s)
  {
    hide Load, StateCodec.Encode, StateIn;
    SavedDecodes(m, s);
  }

  class DurableRaftStorage {
    const store: Kv.KvStore

    ghost predicate Valid()
      reads this, store, store.persistence
    {
      store.Valid()
    }

    constructor (store: Kv.KvStore)
      requires store.Valid()
      ensures Valid() && this.store == store
    {
      this.store := store;
    }

    method LoadState() returns (r: Result<HardState>)
      requires Valid()
      ensures r == StoredState(store.persistence.main)
    {
      hide Load, StateCodec.Decode;
      var encoded := store.Get(KEY);
      if encoded.None? {
        return Ok(INITIAL_STATE);
      }
      r := StateCodec.DecodeState(encoded.value);
    }

    /** A save that succeeds is what every restart recovers; one that fails changes nothing; one that is
        cut off leaves the old state or the new one; and with a working disk it succeeds exactly on the
        savable states, as long as the store has a place for the key, which it keeps. In the life of
        the file a save is the operation SaveOf. */
    method Save(state: HardState, faults: Kv.Faults) returns (ok: bool)
      requires Valid() && StateCodec.FitsTypes(state)
      modifies store, store.persistence
      ensures Valid()
      ensures ok ==> Savable(state) && StoredState(store.persistence.main) == Ok(state)
      ensures !ok ==> store.persistence.main == old(store.persistence.main) && store.entries == old(store.entries)
      ensures RecoversEither(old(store.persistence.trace), store.persistence.trace,
                             StoredState(old(store.persistence.main)), state)
      ensures HasRoom(old(store.entries)) ==> HasRoom(store.entries)
      ensures HasRoom(old(store.entries)) && faults.Harmless() ==> (ok <==> Savable(state))
      ensures StoreRuns.Happens(old(store.persistence.main), SaveOf(state),
                                if ok then StoreRuns.Completed else StoreRuns.Failed, store.persistence.main)
      ensures Kv.CutOff(old(store.persistence.trace), store.persistence.trace,
                        old(store.persistence.main), SaveOf(state))
    {
      hide Load, StateCodec.Encode, StateCodec.Encodable, StateIn, Storable, StoreRuns.Holds;
      var encoded := StateCodec.EncodeState(state);
      if encoded.Err? {
        return false;
      }
      hide StoreRuns.Happens, Kv.CutOff;
      LoadedStorable(store.persistence.main);
      if HasRoom(store.entries) {
        StorableWith(store.entries, state);
      }
      SavedDecodes(store.entries, state);
      ok := store.Put(KEY, encoded.value, faults);
      EitherRecovers(old(store.persistence.trace), store.persistence.trace,
                     old(store.persistence.main), old(store.entries), state);
      if ok {
        FieldLimit(old(store.entries), state);
      }
    }
  }

  lemma FieldLimit(m: EntryMap, s: HardState)
    requires Storable(m[KEY := StateCodec.Encode(s)])
    ensures EncodedSize(s) <= MAX_FIELD_BYTES
  {
    hide StateCodec.Encode;
    EncodeSize(s);
    assert KEY in m[KEY := StateCodec.Encode(s)];
  }

  // ---- Whole lives ----------------------------------------------------------------------------------

  /** The operation a save performs on the store. */
  function SaveOf(s: HardState): StoreRuns.Operation {
    StoreRuns.Put(KEY, StateCodec.Encode(s))
  }

  /** Through any run of completed, failed and crashed operations on the file, a node restarts with the
      last state whose save was acknowledged, until a later save may have taken effect. */
  lemma AcknowledgedStateRecovered(start: Option<Bytes>, events: seq<StoreRuns.Event>, i: nat, s: HardState)
    requires StoreRuns.IsRun(start, events) && i < |events| && StateCodec.Encodable(s)
    requires events[i].outcome.Completed? && events[i].operation == SaveOf(s)
    requires StoreRuns.Quiet(events, i + 1, KEY)
    ensures StoredState(StoreRuns.FileAfter(start, events)) == Ok(s)
  {
    hide Load, StateCodec.Encode, StateCodec.Decode, StateCodec.Encodable, StoreRuns.IsRun;
    StoreRuns.AcknowledgedSurvives(start, events, i);
    StateCodec.DecodeEncode(s);
  }
}
