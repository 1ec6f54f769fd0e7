/** The snapshot file of the key-value store (src/storage/kv_store.cpp): what is written for a map in
    any iteration order, and what is read back. */
module SnapshotFormat {
  import opened RaftTypes
  import opened ByteOrder

  type Bytes = seq<byte>
  type EntryMap = map<Bytes, Bytes>

  const MAX_ENTRIES: nat := 1_000_000
  const MAX_FIELD_BYTES: nat := 67_108_864

  /** "FTKVSTR1" */
  const MAGIC: Bytes := [70, 84, 75, 86, 83, 84, 82, 49]

  predicate FieldsFit(m: EntryMap) {
    forall k | k in m :: |k| <= MAX_FIELD_BYTES && |m[k]| <= MAX_FIELD_BYTES
  }

  /** The maps the format can represent. */
  predicate Storable(m: EntryMap) {
    |m| <= MAX_ENTRIES && FieldsFit(m)
  }

  predicate NoRepeats(order: seq<Bytes>) {
    forall i, j | 0 <= i < j < |order| :: order[i] != order[j]
  }

  /** A possible iteration order of the map. */
  predicate Enumerates(order: seq<Bytes>, m: EntryMap) {
    NoRepeats(order) && Elements(order) == m.Keys
  }

  // ---- The format -----------------------------------------------------------------------------------

  function FieldBytes(f: Bytes): Bytes {
    U64(|f|) + f
  }

  function PairBytes(k: Bytes, v: Bytes): Bytes {
    FieldBytes(k) + FieldBytes(v)
  }

  function PairsBytes(order: seq<Bytes>, m: EntryMap): Bytes
    requires forall k | k in order :: k in m
  {
    if order == [] then [] else PairBytes(order[0], m[order[0]]) + PairsBytes(order[1..], m)
  }

  function SnapshotBytes(order: seq<Bytes>, m: EntryMap): Bytes
    requires forall k | k in order :: k in m
  {
    MAGIC + U64(|order|) + PairsBytes(order, m)
  }

  // ---- The reader -----------------------------------------------------------------------------------

  function ReadField(b: Bytes): Parsed<Bytes> {
    match ReadU64(b)
    case Fail(e) => Fail(e)
    case Read(size, b1) =>
      if size > MAX_FIELD_BYTES then Fail(BadSize)
      else if size > |b1| then Fail(Truncated)
      else Read(b1[..size], b1[size..])
  }

  function ReadPairs(b: Bytes, n: nat, found: EntryMap): Parsed<EntryMap>
    decreases n
  {
    if n == 0 then Read(found, b)
    else
      match ReadField(b)
      case Fail(e) => Fail(e)
      case Read(k, b1) =>
        match ReadField(b1)
        case Fail(e) => Fail(e)
        case Read(v, b2) => if k in found then Fail(DuplicateKey) else ReadPairs(b2, n - 1, found[k := v])
  }

  function ReadBody(b: Bytes): Parsed<EntryMap> {
    match ReadU64(b)
    case Fail(e) => Fail(e)
    case Read(count, b1) => if count > MAX_ENTRIES then Fail(TooManyEntries) else ReadPairs(b1, count, map[])
  }

  function Parse(b: Bytes): Result<EntryMap> {
    if |b| < |MAGIC| then Err(Truncated)
    else if b[..|MAGIC|] != MAGIC then Err(UnsupportedFormat)
    else
      match ReadBody(b[|MAGIC|..])
      case Fail(e) => Err(e)
      case Read(m, rest) => if rest == [] then Ok(m) else Err(TrailingData)
  }

  /** A missing file is an empty map. */
  function Load(file: Option<Bytes>): Result<EntryMap> {
    if file.None? then Ok(map[]) else Parse(file.value)
  }

  // ---- Reading what was written ---------------------------------------------------------------------

  lemma Regroup(a: Bytes, b: Bytes, c: Bytes, d: Bytes)
    ensures (a + b + c) + d == a + (b + (c + d))
  {
  }

  lemma Join(a: Bytes, b: Bytes, c: Bytes)
    ensures (a + b) + c == a + (b + c)
    ensures [] + b == b && a + [] == a
  {
  }

  lemma ReadsField(f: Bytes, rest: Bytes)
    requires |f| <= MAX_FIELD_BYTES
    ensures ReadField(FieldBytes(f) + rest) == Read(f, rest)
  {
    hide ReadU64, U64;
    assert FieldBytes(f) + rest == U64(|f|) + (f + rest);
    ReadsU64(|f|, f + rest);
    assert (f + rest)[..|f|] == f && (f + rest)[|f|..] == rest;
  }

  /** The part of the map whose keys are listed. */
  function Restrict(m: EntryMap, order: seq<Bytes>): EntryMap {
    map k | k in m && k in order :: m[k]
  }

  lemma RestrictFirst(m: EntryMap, order: seq<Bytes>, found: EntryMap)
    requires order != [] && order[0] in m
    ensures found[order[0] := m[order[0]]] + Restrict(m, order[1..]) == found + Restrict(m, order)
  {
    assert order == [order[0]] + order[1..];
  }

  lemma RestrictAll(m: EntryMap, order: seq<Bytes>)
    requires Elements(order) == m.Keys
    ensures map[] + Restrict(m, order) == m
  {
    forall k | k in m
      ensures k in order
    {
      assert k in Elements(order);
    }
  }

  /** The listed keys are in the map and not yet found. */
  predicate Pending(order: seq<Bytes>, m: EntryMap, found: EntryMap) {
    NoRepeats(order) && forall k | k in order :: k in m && k !in found
  }

  lemma PendingRest(order: seq<Bytes>, m: EntryMap, found: EntryMap, v: Bytes)
    requires Pending(order, m, found) && order != []
    ensures order[0] in m && order[0] !in found && Pending(order[1..], m, found[order[0] := v])
  {
    assert order[0] in order;
    forall k | k in order[1..]
      ensures k in m && k !in found[order[0] := v]
    {
      assert k in order;
    }
  }

  lemma {:induction false} ReadsPairs(order: seq<Bytes>, m: EntryMap, found: EntryMap, rest: Bytes)
    requires FieldsFit(m) && Pending(order, m, found)
    ensures ReadPairs(PairsBytes(order, m) + rest, |order|, found) == Read(found + Restrict(m, order), rest)
  {
    hide ReadField, FieldBytes, NoRepeats;
    if order == [] {
      assert PairsBytes(order, m) + rest == rest;
      assert found + Restrict(m, order) == found;
    } else {
      hide Restrict;
      var k := order[0];
      PendingRest(order, m, found, m[k]);
      hide Pending;
      var tail := PairsBytes(order[1..], m) + rest;
      Regroup(FieldBytes(k), FieldBytes(m[k]), PairsBytes(order[1..], m), rest);
      ReadsField(k, FieldBytes(m[k]) + tail);
      ReadsField(m[k], tail);
      ReadsPairs(order[1..], m, found[k := m[k]], rest);
      RestrictFirst(m, order, found);
    }
  }

  lemma {:induction false} NoRepeatsCount(order: seq<Bytes>)
    requires NoRepeats(order)
    ensures |Elements(order)| == |order|
  {
    if order != [] {
      var front, last := order[..|order| - 1], order[|order| - 1];
      NoRepeatsCount(front);
      assert Elements(order) == Elements(front) + {last};
      assert last !in Elements(front);
    }
  }

  lemma ReadsBody(order: seq<Bytes>, m: EntryMap)
    requires |order| <= MAX_ENTRIES && FieldsFit(m) && Pending(order, m, map[])
    ensures ReadBody(U64(|order|) + PairsBytes(order, m)) == Read(map[] + Restrict(m, order), [])
  {
    hide ReadU64, U64, ReadPairs, PairsBytes, FieldsFit, NoRepeats, Restrict;
    ReadsU64(|order|, PairsBytes(order, m));
    ReadsPairs(order, m, map[], []);
    assert PairsBytes(order, m) + [] == PairsBytes(order, m);
  }

  lemma EnumeratedPending(order: seq<Bytes>, m: EntryMap)
    requires Enumerates(order, m)
    ensures Elements(order) == m.Keys && |order| == |m| && (forall k | k in order :: k in m) && Pending(order, m, map[])
  {
    hide NoRepeats;
    assert forall k | k in order :: k in Elements(order);
    NoRepeatsCount(order);
    assert |m.Keys| == |m|;
  }

  lemma ParseBody(body: Bytes)
    requires ReadBody(body).Read? && ReadBody(body).rest == []
    ensures Parse(MAGIC + body) == Ok(ReadBody(body).value)
  {
    hide ReadBody;
    assert (MAGIC + body)[|MAGIC|..] == body && (MAGIC + body)[..|MAGIC|] == MAGIC;
  }

  /** Whatever order a storable map is written in, it is read back as the same map. */
  lemma ParseSnapshot(order: seq<Bytes>, m: EntryMap)
    requires Storable(m) && Enumerates(order, m)
    ensures (forall k | k in order :: k in m) && Parse(SnapshotBytes(order, m)) == Ok(m)
  {
    hide U64, PairsBytes, FieldsFit, Pending, Enumerates, Restrict, ReadBody, Parse, Elements;
    EnumeratedPending(order, m);
    ReadsBody(order, m);
    RestrictAll(m, order);
    ParseBody(U64(|order|) + PairsBytes(order, m));
    Join(MAGIC, U64(|order|), PairsBytes(order, m));
  }

  // ---- Only what was written is read ----------------------------------------------------------------

  lemma FieldRead(b: Bytes)
    requires ReadField(b).Read?
    ensures var r := ReadField(b); |r.value| <= MAX_FIELD_BYTES && b == FieldBytes(r.value) + r.rest
  {
    hide ReadU64, U64;
    U64Read(b);
    var size, b1 := ReadU64(b).value, ReadU64(b).rest;
    assert b1 == b1[..size] + b1[size..];
    assert b == U64(size) + (b1[..size] + b1[size..]);
  }

  /** The map read is what was found before plus the listed keys. */
  predicate ReadsAs(found: EntryMap, order: seq<Bytes>, m: EntryMap) {
    && NoRepeats(order) && FieldsFit(m)
    && (forall k | k in order :: k !in found && k in m)
    && m.Keys == found.Keys + Elements(order)
    && (forall k | k in found :: m[k] == found[k])
  }

  lemma ReadsAsFirst(found: EntryMap, k: Bytes, v: Bytes, more: seq<Bytes>, m: EntryMap)
    requires k !in found && ReadsAs(found[k := v], more, m)
    ensures ReadsAs(found, [k] + more, m) && k in m && m[k] == v
  {
    var order := [k] + more;
    assert k in found[k := v];
    assert Elements(order) == {k} + Elements(more);
    forall j | j in order
      ensures j !in found && j in m
    {
      if j != k {
        assert j in more;
      }
    }
    assert NoRepeats(order) by {
      forall i, j | 0 <= i < j < |order|
        ensures order[i] != order[j]
      {
        assert order[j] == more[j - 1] && more[j - 1] in more;
        if i > 0 {
          assert order[i] == more[i - 1];
        }
      }
    }
  }

  lemma ReadsAsIn(found: EntryMap, order: seq<Bytes>, m: EntryMap)
    requires ReadsAs(found, order, m)
    ensures forall k | k in order :: k in m
  {
  }

  lemma {:induction false} PairsRead(b: Bytes, n: nat, found: EntryMap) returns (order: seq<Bytes>)
    requires ReadPairs(b, n, found).Read? && FieldsFit(found)
    ensures var r := ReadPairs(b, n, found);
            |order| == n && ReadsAs(found, order, r.value) && b == PairsBytes(order, r.value) + r.rest
    decreases n
  {
    hide ReadField, FieldBytes;
    if n == 0 {
      order := [];
    } else {
      FieldRead(b);
      var k, b1 := ReadField(b).value, ReadField(b).rest;
      FieldRead(b1);
      var v, b2 := ReadField(b1).value, ReadField(b1).rest;
      var more := PairsRead(b2, n - 1, found[k := v]);
      hide ReadsAs;
      var r := ReadPairs(b, n, found);
      assert r == ReadPairs(b2, n - 1, found[k := v]);
      ReadsAsFirst(found, k, v, more, r.value);
      ReadsAsIn(found[k := v], more, r.value);
      order := [k] + more;
      ReadsAsIn(found, order, r.value);
      PairsFirst(k, v, more, r.value);
      Regroup(FieldBytes(k), FieldBytes(v), PairsBytes(more, r.value), r.rest);
    }
  }

  lemma {:induction false} PairsFirst(k: Bytes, v: Bytes, more: seq<Bytes>, m: EntryMap)
    requires k in m && m[k] == v && (forall j | j in more :: j in m)
    ensures (forall j | j in [k] + more :: j in m) && PairsBytes([k] + more, m) == PairBytes(k, v) + PairsBytes(more, m)
  {
    hide PairBytes;
    assert forall j | j in [k] + more :: j == k || j in more;
    assert ([k] + more)[1..] == more;
  }

  /** Every accepted file is what some iteration order of the returned map writes, and that map is
      storable. */
  lemma ParsedIsSnapshot(b: Bytes) returns (order: seq<Bytes>)
    requires Parse(b).Ok?
    ensures var m := Parse(b).value;
            && Storable(m) && Enumerates(order, m)
            && (forall k | k in order :: k in m)
            && b == SnapshotBytes(order, m)
  {
    hide ReadU64, U64, ReadPairs, PairsBytes;
    var m := Parse(b).value;
    var b0 := b[|MAGIC|..];
    U64Read(b0);
    var count, b1 := ReadU64(b0).value, ReadU64(b0).rest;
    order := PairsRead(b1, count, map[]);
    assert m.Keys == Elements(order);
    NoRepeatsCount(order);
    assert |m.Keys| == |m|;
    assert b == MAGIC + b0;
  }

  /** The accepted files, both ways. */
  lemma ParseAcceptsExactly(b: Bytes, m: EntryMap)
    ensures Parse(b) == Ok(m) <==>
            Storable(m) &&
            exists order: seq<Bytes> ::
              Enumerates(order, m) && (forall k | k in order :: k in m) && b == SnapshotBytes(order, m)
  {
    hide Storable, ReadBody, SnapshotBytes;
    if Parse(b) == Ok(m) {
      var order := ParsedIsSnapshot(b);
      assert Enumerates(order, m) && (forall k | k in order :: k in m) && b == SnapshotBytes(order, m);
    }
    if Storable(m) {
      forall order: seq<Bytes> |
        Enumerates(order, m) && (forall k | k in order :: k in m) && b == SnapshotBytes(order, m)
        ensures Parse(b) == Ok(m)
      {
        ParseSnapshot(order, m);
      }
    }
  }

  lemma LoadedStorable(file: Option<Bytes>)
    requires Load(file).Ok?
    ensures Storable(Load(file).value)
  {
    hide Parse;
    if file.Some? {
      var order := ParsedIsSnapshot(file.value);
    }
  }
}
