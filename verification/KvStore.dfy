/** The durable key-value store (src/storage/kv_store.cpp): the snapshot file is written beside the
    old one and renamed over it, and memory follows only after the file does. */
module KvStore {
  import opened RaftTypes
  import opened ByteOrder
  import opened SnapshotFormat
  import StoreRuns

  /** The snapshot file and its temporary neighbour. */
  datatype Disk = Disk(main: Option<Bytes>, temp: Option<Bytes>)

  /** What the operating system does to one save: which steps fail, and how much of a failing write
      still reaches the temporary file. */
  datatype Faults = Faults(directory: bool, open: bool, write: Option<nat>, torn: Bytes,
                           flush: bool, close: bool, rename: bool, remove: bool)
  {
    predicate Harmless() {
      !directory && !open && write.None? && !flush && !close && !rename
    }
  }

  /** What the operating system does to one load. */
  datatype ReadFaults = ReadFaults(inspect: bool, open: bool)

  /** The file is the snapshot of the map in some iteration order. */
  ghost predicate HoldsMap(file: Option<Bytes>, order: seq<Bytes>, m: EntryMap) {
    && Enumerates(order, m) && (forall k | k in order :: k in m)
    && file == Some(SnapshotBytes(order, m))
  }

  /** The trace continues the old one, and the snapshot file was one of the two in every new state. */
  ghost predicate Continues(before: seq<Disk>, after: seq<Disk>, was: Option<Bytes>, now: Option<Bytes>) {
    && before <= after
    && forall i | |before| <= i < |after| :: after[i].main == was || after[i].main == now
  }

  lemma {:induction false} PairsSnoc(order: seq<Bytes>, k: Bytes, m: EntryMap)
    requires k in m && forall j | j in order :: j in m
    ensures (forall j | j in order + [k] :: j in m)
    ensures PairsBytes(order + [k], m) == PairsBytes(order, m) + PairBytes(k, m[k])
  {
    hide PairBytes;
    assert forall j | j in order + [k] :: j in order || j == k;
    if order == [] {
      assert order + [k] == [k] && PairsBytes([k][1..], m) == [];
    } else {
      PairsSnoc(order[1..], k, m);
      assert (order + [k])[1..] == order[1..] + [k];
    }
  }

  lemma NoRepeatsSnoc(order: seq<Bytes>, k: Bytes)
    requires NoRepeats(order) && k !in Elements(order)
    ensures NoRepeats(order + [k]) && Elements(order + [k]) == Elements(order) + {k}
  {
    forall i | 0 <= i < |order|
      ensures order[i] != k
    {
      assert order[i] in Elements(order);
    }
  }

  class FilePersistence {
    var main: Option<Bytes>
    var temp: Option<Bytes>
    ghost var trace: seq<Disk>  // every state of the two files so far, the present one last

    ghost predicate Valid()
      reads this
    {
      trace != [] && trace[|trace| - 1] == Disk(main, temp)
    }

    constructor (main: Option<Bytes>, temp: Option<Bytes>)
      ensures Valid() && this.main == main && this.temp == temp
    {
      this.main, this.temp := main, temp;
      trace := [Disk(main, temp)];
    }

    method SetTemp(content: Option<Bytes>)
      requires Valid()
      modifies this
      ensures Valid() && main == old(main) && temp == content && trace == old(trace) + [Disk(main, temp)]
    {
      temp := content;
      trace := trace + [Disk(main, temp)];
    }

    /** The cleanup after a failure; its own failure is ignored. */
    method RemoveTemp(faults: Faults)
      requires Valid()
      modifies this
      ensures Valid() && main == old(main) && Continues(old(trace), trace, main, main)
    {
      if !faults.remove {
        SetTemp(None);
      }
    }

    method WriteExact(data: Bytes, count: nat, faults: Faults) returns (ok: bool)
      requires Valid() && temp.Some?
      modifies this
      ensures Valid() && main == old(main) && Continues(old(trace), trace, main, main) && temp.Some?
      ensures ok <==> faults.write != Some(count)
      ensures ok ==> temp == Some(old(temp).value + data)
    {
      ok := faults.write != Some(count);
      SetTemp(Some(temp.value + if ok then data else faults.torn));
    }

    method WriteField(field: Bytes, count: nat, faults: Faults) returns (ok: bool)
      requires Valid() && temp.Some?
      modifies this
      ensures Valid() && main == old(main) && Continues(old(trace), trace, main, main) && temp.Some?
      ensures ok ==> |field| <= MAX_FIELD_BYTES && temp == Some(old(temp).value + FieldBytes(field))
      ensures |field| <= MAX_FIELD_BYTES && faults.write.None? ==> ok
    {
      if |field| > MAX_FIELD_BYTES {
        return false;
      }
      hide U64;
      var size := AppendUint64([], |field|);
      assert size == U64(|field|);
      Join(temp.value, size, field);
      ok := WriteExact(size, count, faults);
      if ok {
        ok := WriteExact(field, count + 1, faults);
      }
    }

    /** Write one pair after the pairs written so far. */
    method WritePair(key: Bytes, value: Bytes, count: nat, faults: Faults) returns (ok: bool)
      requires Valid() && temp.Some?
      modifies this
      ensures Valid() && main == old(main) && Continues(old(trace), trace, main, main) && temp.Some?
      ensures ok ==> |key| <= MAX_FIELD_BYTES && |value| <= MAX_FIELD_BYTES
                     && temp == Some(old(temp).value + PairBytes(key, value))
      ensures |key| <= MAX_FIELD_BYTES && |value| <= MAX_FIELD_BYTES && faults.write.None? ==> ok
    {
      hide FieldBytes;
      Join(temp.value, FieldBytes(key), FieldBytes(value));
      ok := WriteField(key, count, faults);
      if ok {
        ok := WriteField(value, count + 2, faults);
      }
    }

    method WriteHeader(count: nat, faults: Faults) returns (ok: bool)
      requires Valid() && temp == Some([]) && count <= MAX_ENTRIES
      modifies this
      ensures Valid() && main == old(main) && Continues(old(trace), trace, main, main) && temp.Some?
      ensures ok ==> temp == Some(MAGIC + U64(count))
      ensures faults.write.None? ==> ok
    {
      hide U64;
      ok := WriteExact(MAGIC, 0, faults);
      if ok {
        Join([], MAGIC, []);
        var size := AppendUint64([], count);
        Join([], size, []);
        Join([], U64(count), []);
        ok := WriteExact(size, 1, faults);
      }
    }

    /** Write the pairs, in whatever order the map is iterated, after what is in the temporary file. */
    method WritePairs(entries: EntryMap, faults: Faults) returns (ok: bool, ghost order: seq<Bytes>)
      requires Valid() && temp.Some?
      modifies this
      ensures Valid() && main == old(main) && Continues(old(trace), trace, main, main) && temp.Some?
      ensures ok ==> FieldsFit(entries) && Enumerates(order, entries) && forall k | k in order :: k in entries
      ensures ok ==> temp == Some(old(temp).value + PairsBytes(order, entries))
      ensures FieldsFit(entries) && faults.write.None? ==> ok
    {
      hide PairsBytes, PairBytes;
      ok, order := true, [];
      var count := 2;
      var remaining := entries.Keys;
      EmptyPairs(entries);
      Join(temp.value, [], []);
      while remaining != {}
        invariant Valid() && main == old(main) && Continues(old(trace), trace, main, main)
        invariant remaining <= entries.Keys
        invariant NoRepeats(order) && Elements(order) == entries.Keys - remaining
        invariant forall k | k in order :: k in entries
        invariant forall k | k in entries && k !in remaining ::
                    |k| <= MAX_FIELD_BYTES && |entries[k]| <= MAX_FIELD_BYTES
        invariant temp == Some(old(temp).value + PairsBytes(order, entries))
        invariant ok
        decreases remaining
      {
        var key :| key in remaining;
        ok := WritePair(key, entries[key], count, faults);
        if !ok {
          return;
        }
        NoRepeatsSnoc(order, key);
        PairsSnoc(order, key, entries);
        Join(old(temp).value, PairsBytes(order, entries), PairBytes(key, entries[key]));
        order := order + [key];
        remaining := remaining - {key};
        count := count + 4;
      }
    }

    /** Write the whole snapshot to the temporary file. */
    method WriteSnapshot(entries: EntryMap, faults: Faults) returns (ok: bool, ghost order: seq<Bytes>)
      requires Valid() && temp == Some([]) && |entries| <= MAX_ENTRIES
      modifies this
      ensures Valid() && main == old(main) && Continues(old(trace), trace, main, main)
      ensures ok ==> Storable(entries) && HoldsMap(temp, order, entries)
      ensures Storable(entries) && faults.write.None? ==> ok
    {
      hide U64, PairsBytes, FieldsFit, NoRepeats;
      order := [];
      ok := WriteHeader(|entries|, faults);
      if !ok {
        return;
      }
      ok, order := WritePairs(entries, faults);
      if ok {
        NoRepeatsCount(order);
        assert |entries.Keys| == |entries|;
      }
    }

    /** Replace the snapshot file. Whatever fails, the file is the old one or the complete new one, at
        the end and in every state on the way. */
    method Save(entries: EntryMap, faults: Faults) returns (ok: bool, ghost order: seq<Bytes>)
      requires Valid()
      modifies this
      ensures Valid()
      ensures ok ==> Storable(entries) && HoldsMap(main, order, entries)
      ensures !ok ==> main == old(main)
      ensures Storable(entries) && faults.Harmless() ==> ok
      ensures Continues(old(trace), trace, old(main), main)
    {
      ok, order := false, [];
      if |entries| > MAX_ENTRIES || faults.directory {
        return;
      }
      if faults.open {
        RemoveTemp(faults);
        return;
      }
      SetTemp(Some([]));
      ok, order := WriteSnapshot(entries, faults);
      if !ok || faults.flush || faults.close || faults.rename {
        RemoveTemp(faults);
        ok := false;
        return;
      }
      main, temp := temp, None;
      trace := trace + [Disk(main, temp)];
    }

    /** Read the snapshot file, field by field. A file that cannot be inspected, or is there and cannot
        be opened, is an error and never an empty map. */
    method Read(faults: ReadFaults) returns (r: Result<EntryMap>)
      ensures r == if faults.inspect || (main.Some? && faults.open) then Err(Unreadable) else Load(main)
    {
      hide ReadPairs, ReadU64;
      if faults.inspect {
        return Err(Unreadable);
      }
      if main.None? {
        return Ok(map[]);
      }
      if faults.open {
        return Err(Unreadable);
      }
      var bytes := main.value;
      if |bytes| < |MAGIC| {
        return Err(Truncated);
      }
      if bytes[..|MAGIC|] != MAGIC {
        return Err(UnsupportedFormat);
      }
      var count, offset := ReadAt(bytes, |MAGIC|);
      if count.Fail? {
        return Err(count.error);
      }
      if count.value > SnapshotFormat.MAX_ENTRIES {
        return Err(TooManyEntries);
      }
      var entries, end := ReadPairsAt(bytes, offset, count.value);
      if entries.Fail? {
        return Err(entries.error);
      }
      if end != |bytes| {
        return Err(TrailingData);
      }
      return Ok(entries.value);
    }
  }

  method ReadFieldAt(bytes: Bytes, offset: nat) returns (r: Parsed<Bytes>, next: nat)
    requires offset <= |bytes|
    ensures r == ReadField(bytes[offset..])
    ensures r.Read? ==> next <= |bytes| && r.rest == bytes[next..]
  {
    hide ReadU64;
    var size, start := ReadAt(bytes, offset);
    next := offset;
    if size.Fail? {
      return Fail(size.error), next;
    }
    if size.value > MAX_FIELD_BYTES {
      return Fail(BadSize), next;
    }
    if size.value > |bytes| - start {
      return Fail(Truncated), next;
    }
    next := start + size.value;
    assert bytes[start..][..size.value] == bytes[start..next];
    assert bytes[start..][size.value..] == bytes[next..];
    return Parsed.Read(bytes[start..next], bytes[next..]), next;
  }

  method ReadPairsAt(bytes: Bytes, offset: nat, count: nat) returns (r: Parsed<EntryMap>, next: nat)
    requires offset <= |bytes|
    ensures r == ReadPairs(bytes[offset..], count, map[])
    ensures r.Read? ==> next <= |bytes| && r.rest == bytes[next..]
  {
    hide ReadField;
    var entries: EntryMap := map[];
    next := offset;
    for index := 0 to count
      invariant next <= |bytes|
      invariant ReadPairs(bytes[offset..], count, map[]) == ReadPairs(bytes[next..], count - index, entries)
    {
      var key, o1 := ReadFieldAt(bytes, next);
      if key.Fail? {
        return Fail(key.error), next;
      }
      var value, o2 := ReadFieldAt(bytes, o1);
      if value.Fail? {
        return Fail(value.error), next;
      }
      if key.value in entries {
        return Fail(DuplicateKey), next;
      }
      entries := entries[key.value := value.value];
      next := o2;
    }
    return Parsed.Read(entries, bytes[next..]), next;
  }

  /** What a crash leaves to be loaded: in every new state of the files, one of the two maps. */
  ghost predicate LoadsEither(before: seq<Disk>, after: seq<Disk>, a: EntryMap, b: EntryMap) {
    && before <= after
    && forall i | |before| <= i < |after| :: Load(after[i].main) == Ok(a) || Load(after[i].main) == Ok(b)
  }

  /** Every new state of the files is one the operation could have been cut off in. */
  ghost predicate CutOff(before: seq<Disk>, after: seq<Disk>, file: Option<Bytes>, op: StoreRuns.Operation) {
    && before <= after
    && forall i | |before| <= i < |after| :: StoreRuns.Happens(file, op, StoreRuns.Crashed, after[i].main)
  }

  lemma CutOffLoads(before: seq<Disk>, after: seq<Disk>, file: Option<Bytes>, op: StoreRuns.Operation)
    requires Load(file).Ok? && CutOff(before, after, file, op)
    ensures LoadsEither(before, after, Load(file).value, StoreRuns.Apply(op, Load(file).value))
  {
    hide Load, StoreRuns.Happens, StoreRuns.Apply;
    forall i | |before| <= i < |after|
      ensures Load(after[i].main) == Load(file) || Load(after[i].main) == Ok(StoreRuns.Apply(op, Load(file).value))
    {
      var applied := StoreRuns.Effect(file, op, StoreRuns.Crashed, after[i].main);
    }
  }

  /** A save of the map an operation makes is that operation, completed, failed or cut off. */
  lemma SaveHappens(before: seq<Disk>, after: seq<Disk>, file: Option<Bytes>, file': Option<Bytes>,
                    op: StoreRuns.Operation, ok: bool)
    requires Load(file).Ok? && Continues(before, after, file, file')
    requires if ok then StoreRuns.Holds(file', StoreRuns.Apply(op, Load(file).value)) else file' == file
    ensures StoreRuns.Happens(file, op, if ok then StoreRuns.Completed else StoreRuns.Failed, file')
    ensures CutOff(before, after, file, op)
    ensures LoadsEither(before, after, Load(file).value, StoreRuns.Apply(op, Load(file).value))
  {
    hide Load, StoreRuns.Holds, StoreRuns.Apply;
    CutOffLoads(before, after, file, op);
  }

  class KvStore {
    const persistence: FilePersistence
    var entries: EntryMap

    /** Memory and file agree. */
    ghost predicate Valid()
      reads this, persistence
    {
      persistence.Valid() && Load(persistence.main) == Ok(entries)
    }

    constructor (persistence: FilePersistence, entries: EntryMap)
      requires persistence.Valid() && Load(persistence.main) == Ok(entries)
      ensures Valid() && this.persistence == persistence && this.entries == entries
    {
      this.persistence, this.entries := persistence, entries;
    }

    /** Opening succeeds exactly when the file can be read and is a snapshot, and then finds the map it
        holds. */
    static method Open(persistence: FilePersistence, faults: ReadFaults)
      returns (store: KvStore?, error: Option<CodecError>)
      requires persistence.Valid()
      ensures store != null <==>
                !faults.inspect && !(persistence.main.Some? && faults.open) && Load(persistence.main).Ok?
      ensures store != null ==> fresh(store) && store.Valid() && store.persistence == persistence
                                && Load(persistence.main) == Ok(store.entries)
      ensures store == null ==> error.Some? && (error == Some(Unreadable) || Load(persistence.main) == Err(error.value))
    {
      hide Load;
      var r := persistence.Read(faults);
      if r.Err? {
        return null, Some(r.error);
      }
      store := new KvStore(persistence, r.value);
      error := None;
    }

    /** Save a new map and adopt it if that succeeds. */
    method Publish(updated: EntryMap, faults: Faults) returns (ok: bool)
      requires Valid()
      modifies this, persistence
      ensures Valid()
      ensures entries == if ok then updated else old(entries)
      ensures !ok ==> persistence.main == old(persistence.main)
      ensures ok ==> Storable(updated)
      ensures Storable(updated) && faults.Harmless() ==> ok
      ensures ok ==> StoreRuns.Holds(persistence.main, updated)
      ensures Continues(old(persistence.trace), persistence.trace, old(persistence.main), persistence.main)
    {
      hide Load, Storable, SnapshotBytes, Enumerates;
      ghost var order;
      ok, order := persistence.Save(updated, faults);
      if ok {
        StoreRuns.HoldsLoads(persistence.main, updated);
        entries := updated;
      }
    }

    method Put(key: Bytes, value: Bytes, faults: Faults) returns (ok: bool)
      requires Valid()
      modifies this, persistence
      ensures Valid()
      ensures entries == if ok then old(entries)[key := value] else old(entries)
      ensures !ok ==> persistence.main == old(persistence.main)
      ensures ok ==> Storable(old(entries)[key := value])
      ensures Storable(old(entries)[key := value]) && faults.Harmless() ==> ok
      ensures StoreRuns.Happens(old(persistence.main), StoreRuns.Put(key, value),
                                if ok then StoreRuns.Completed else StoreRuns.Failed, persistence.main)
      ensures CutOff(old(persistence.trace), persistence.trace, old(persistence.main), StoreRuns.Put(key, value))
      ensures LoadsEither(old(persistence.trace), persistence.trace, old(entries), old(entries)[key := value])
    {
      hide Load, Storable, StoreRuns.Holds, StoreRuns.Happens, LoadsEither, CutOff, Continues;
      ok := Publish(entries[key := value], faults);
      SaveHappens(old(persistence.trace), persistence.trace, old(persistence.main), persistence.main,
                  StoreRuns.Put(key, value), ok);
    }

    /** A read from memory is what a restart would read from the file. */
    method Get(key: Bytes) returns (value: Option<Bytes>)
      requires Valid()
      ensures Load(persistence.main).Ok? && value == StoreRuns.Lookup(Load(persistence.main).value, key)
    {
      hide Load;
      value := if key in entries then Some(entries[key]) else None;
    }

    /** Erasing a missing key touches nothing. */
    method Erase(key: Bytes, faults: Faults) returns (ok: bool, erased: bool)
      requires Valid()
      modifies this, persistence
      ensures Valid()
      ensures entries == if erased then old(entries) - {key} else old(entries)
      ensures erased <==> ok && key in old(entries)
      ensures key !in old(entries) ==> ok && persistence.trace == old(persistence.trace)
      ensures !ok ==> persistence.main == old(persistence.main)
      ensures key in old(entries) && faults.Harmless() ==> erased
      ensures StoreRuns.Happens(old(persistence.main), StoreRuns.Erase(key),
                                if ok then StoreRuns.Completed else StoreRuns.Failed, persistence.main)
      ensures CutOff(old(persistence.trace), persistence.trace, old(persistence.main), StoreRuns.Erase(key))
      ensures LoadsEither(old(persistence.trace), persistence.trace, old(entries), old(entries) - {key})
    {
      if key !in entries {
        assert CutOff(persistence.trace, persistence.trace, persistence.main, StoreRuns.Erase(key));
        return true, false;
      }
      LoadedStorable(persistence.main);
      StorableWithout(entries, key);
      hide Load, Storable, StoreRuns.Holds, StoreRuns.Happens, LoadsEither, CutOff, Continues;
      ok := Publish(entries - {key}, faults);
      erased := ok;
      SaveHappens(old(persistence.trace), persistence.trace, old(persistence.main), persistence.main,
                  StoreRuns.Erase(key), ok);
    }
  }

  lemma StorableWithout(m: EntryMap, key: Bytes)
    requires Storable(m)
    ensures Storable(m - {key})
  {
    var less := m - {key};
    assert less.Keys <= m.Keys;
    assert m.Keys == less.Keys + (m.Keys - less.Keys);
    assert |less| == |less.Keys| && |m| == |m.Keys|;
  }

  lemma EmptyPairs(m: EntryMap)
    ensures PairsBytes([], m) == []
  {
  }
}
