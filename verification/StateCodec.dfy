/** The byte format of the durable Raft state (src/node/node_runtime.cpp): encoder, decoder, and the
    proof that the decoder accepts exactly what the encoder writes, up to the choice of the non-zero
    byte that stands for true. */
module StateCodec {
  import opened RaftTypes
  import opened ByteOrder

  const MAX_ENTRIES: nat := 1_000_000
  const MAX_COMMAND_BYTES: nat := 67_108_864

  /** "FTKVRAFT1" */
  const MAGIC: seq<byte> := [70, 84, 75, 86, 82, 65, 70, 84, 49]

  // ---- What the types of the source can hold, and what the encoder accepts ------------------------

  predicate EntryFits(e: LogEntry) {
    e.term < U64_LIMIT && |e.command| < U64_LIMIT
  }

  predicate FitsTypes(s: HardState) {
    && s.term < U64_LIMIT
    && (s.vote.Some? ==> s.vote.value < U64_LIMIT)
    && (forall i | 0 <= i < |s.log| :: EntryFits(s.log[i]))
  }

  predicate CommandsFit(log: seq<LogEntry>) {
    forall i | 0 <= i < |log| :: |log[i].command| <= MAX_COMMAND_BYTES
  }

  /** The states the format can represent. */
  predicate Encodable(s: HardState) {
    FitsTypes(s) && |s.log| <= MAX_ENTRIES && CommandsFit(s.log)
  }

  // ---- The format -----------------------------------------------------------------------------------

  function EntryBytes(e: LogEntry, flag: byte): seq<byte> {
    U64(e.term) + [flag] + U64(|e.command|) + e.command
  }

  function EntriesBytes(log: seq<LogEntry>, flags: seq<byte>): seq<byte>
    requires |flags| == |log|
  {
    if log == [] then [] else EntryBytes(log[0], flags[0]) + EntriesBytes(log[1..], flags[1..])
  }

  function VoteBytes(vote: Option<NodeId>, flag: byte): seq<byte> {
    [flag] + if vote.Some? then U64(vote.value) else []
  }

  /** A spelling of a state: the flags may use any byte that says the right thing. */
  function Spelling(s: HardState, voteFlag: byte, flags: seq<byte>): seq<byte>
    requires |flags| == |s.log|
  {
    MAGIC + U64(s.term) + VoteBytes(s.vote, voteFlag) + U64(|s.log|) + EntriesBytes(s.log, flags)
  }

  predicate FlagsSay(log: seq<LogEntry>, flags: seq<byte>) {
    |flags| == |log| && forall i | 0 <= i < |log| :: (flags[i] != 0) == log[i].isNoOp
  }

  predicate Spells(s: HardState, voteFlag: byte, flags: seq<byte>) {
    (voteFlag != 0) == s.vote.Some? && FlagsSay(s.log, flags)
  }

  /** The encoder writes 1 for true. */
  function Flags(log: seq<LogEntry>): seq<byte> {
    seq(|log|, i requires 0 <= i < |log| => if log[i].isNoOp then 1 else 0)
  }

  function Encode(s: HardState): seq<byte> {
    Spelling(s, if s.vote.Some? then 1 else 0, Flags(s.log))
  }

  // ---- The decoder ----------------------------------------------------------------------------------

  function ReadFlag(b: seq<byte>): Parsed<bool> {
    if b == [] then Fail(Truncated) else Read(b[0] != 0, b[1..])
  }

  function ReadCommand(b: seq<byte>, size: nat): Parsed<seq<byte>> {
    if size > MAX_COMMAND_BYTES || size > |b| then Fail(BadSize) else Read(b[..size], b[size..])
  }

  function ReadEntry(b: seq<byte>): Parsed<LogEntry> {
    match ReadU64(b)
    case Fail(e) => Fail(e)
    case Read(term, b1) =>
      match ReadFlag(b1)
      case Fail(e) => Fail(e)
      case Read(isNoOp, b2) =>
        match ReadU64(b2)
        case Fail(e) => Fail(e)
        case Read(size, b3) =>
          match ReadCommand(b3, size)
          case Fail(e) => Fail(e)
          case Read(command, b4) => Read(LogEntry(term, command, isNoOp), b4)
  }

  function ReadEntries(b: seq<byte>, n: nat): Parsed<seq<LogEntry>>
    decreases n
  {
    if n == 0 then Read([], b)
    else
      match ReadEntry(b)
      case Fail(e) => Fail(e)
      case Read(entry, rest) =>
        match ReadEntries(rest, n - 1)
        case Fail(e) => Fail(e)
        case Read(log, rest') => Read([entry] + log, rest')
  }

  function ReadVote(b: seq<byte>): Parsed<Option<NodeId>> {
    match ReadFlag(b)
    case Fail(e) => Fail(e)
    case Read(hasVote, b1) =>
      if !hasVote then Read(None, b1)
      else
        match ReadU64(b1)
        case Fail(e) => Fail(e)
        case Read(v, b2) => Read(Some(v), b2)
  }

  function ReadLog(b: seq<byte>): Parsed<seq<LogEntry>> {
    match ReadU64(b)
    case Fail(e) => Fail(e)
    case Read(count, b1) => if count > MAX_ENTRIES then Fail(TooManyEntries) else ReadEntries(b1, count)
  }

  function ReadState(b: seq<byte>): Parsed<HardState> {
    if !(MAGIC <= b) then Fail(UnsupportedFormat)
    else
      match ReadU64(b[|MAGIC|..])
      case Fail(e) => Fail(e)
      case Read(term, b1) =>
        match ReadVote(b1)
        case Fail(e) => Fail(e)
        case Read(vote, b2) =>
          match ReadLog(b2)
          case Fail(e) => Fail(e)
          case Read(log, b3) => Read(HardState(term, vote, log), b3)
  }

  function Decode(b: seq<byte>): Result<HardState> {
    match ReadState(b)
    case Fail(e) => Err(e)
    case Read(s, rest) => if rest == [] then Ok(s) else Err(TrailingData)
  }

  // ---- Reading what was written ---------------------------------------------------------------------

  lemma ReadsEntry(e: LogEntry, flag: byte, rest: seq<byte>)
    requires EntryFits(e) && |e.command| <= MAX_COMMAND_BYTES && (flag != 0) == e.isNoOp
    ensures ReadEntry(EntryBytes(e, flag) + rest) == Read(e, rest)
  {
    hide ReadU64, U64;
    var b3 := e.command + rest;
    var b2 := U64(|e.command|) + b3;
    var b1 := [flag] + b2;
    assert EntryBytes(e, flag) + rest == U64(e.term) + b1;
    ReadsU64(e.term, b1);
    assert ReadFlag(b1) == Read(e.isNoOp, b2);
    ReadsU64(|e.command|, b3);
    assert b3[..|e.command|] == e.command && b3[|e.command|..] == rest;
  }

  lemma {:induction false} ReadsEntries(log: seq<LogEntry>, flags: seq<byte>, rest: seq<byte>)
    requires FlagsSay(log, flags) && CommandsFit(log) && forall i | 0 <= i < |log| :: EntryFits(log[i])
    ensures ReadEntries(EntriesBytes(log, flags) + rest, |log|) == Read(log, rest)
  {
    hide ReadEntry, EntryBytes;
    if log == [] {
      assert EntriesBytes(log, flags) + rest == rest;
    } else {
      var tail := EntriesBytes(log[1..], flags[1..]) + rest;
      assert EntriesBytes(log, flags) + rest == EntryBytes(log[0], flags[0]) + tail;
      ReadsEntry(log[0], flags[0], tail);
      ReadsEntries(log[1..], flags[1..], rest);
      assert [log[0]] + log[1..] == log;
    }
  }

  lemma ReadsVote(vote: Option<NodeId>, flag: byte, rest: seq<byte>)
    requires (flag != 0) == vote.Some? && (vote.Some? ==> vote.value < U64_LIMIT)
    ensures ReadVote(VoteBytes(vote, flag) + rest) == Read(vote, rest)
  {
    hide ReadU64, U64;
    var tail := if vote.Some? then U64(vote.value) + rest else rest;
    assert VoteBytes(vote, flag) + rest == [flag] + tail;
    if vote.Some? {
      ReadsU64(vote.value, rest);
    }
  }

  lemma ReadsLog(log: seq<LogEntry>, flags: seq<byte>, rest: seq<byte>)
    requires FlagsSay(log, flags) && CommandsFit(log) && |log| <= MAX_ENTRIES
    requires forall i | 0 <= i < |log| :: EntryFits(log[i])
    ensures ReadLog(U64(|log|) + EntriesBytes(log, flags) + rest) == Read(log, rest)
  {
    hide ReadU64, U64, EntriesBytes, ReadEntries;
    assert U64(|log|) + EntriesBytes(log, flags) + rest == U64(|log|) + (EntriesBytes(log, flags) + rest);
    ReadsU64(|log|, EntriesBytes(log, flags) + rest);
    ReadsEntries(log, flags, rest);
  }

  /** Every spelling of a representable state, followed by anything, reads back as that state and
      leaves the rest. */
  lemma ReadsSpelling(s: HardState, voteFlag: byte, flags: seq<byte>, rest: seq<byte>)
    requires Encodable(s) && Spells(s, voteFlag, flags)
    ensures ReadState(Spelling(s, voteFlag, flags) + rest) == Read(s, rest)
  {
    hide ReadU64, U64, EntriesBytes, VoteBytes, ReadVote, ReadLog, EntryFits;
    var b := Spelling(s, voteFlag, flags) + rest;
    var b2 := U64(|s.log|) + EntriesBytes(s.log, flags) + rest;
    var b1 := VoteBytes(s.vote, voteFlag) + b2;
    assert b == MAGIC + (U64(s.term) + b1);
    assert b[|MAGIC|..] == U64(s.term) + b1;
    ReadsU64(s.term, b1);
    ReadsVote(s.vote, voteFlag, b2);
    ReadsLog(s.log, flags, rest);
  }

  /** Decoding inverts every spelling. */
  lemma DecodeSpelling(s: HardState, voteFlag: byte, flags: seq<byte>)
    requires Encodable(s) && Spells(s, voteFlag, flags)
    ensures Decode(Spelling(s, voteFlag, flags)) == Ok(s)
  {
    hide ReadState, Spelling;
    ReadsSpelling(s, voteFlag, flags, []);
    assert Spelling(s, voteFlag, flags) + [] == Spelling(s, voteFlag, flags);
  }

  /** The round trip: what is encoded decodes to the same state. */
  lemma DecodeEncode(s: HardState)
    requires Encodable(s)
    ensures Decode(Encode(s)) == Ok(s)
  {
    DecodeSpelling(s, if s.vote.Some? then 1 else 0, Flags(s.log));
  }

  // ---- Only what was written is read ----------------------------------------------------------------

  lemma EntryRead(b: seq<byte>) returns (flag: byte)
    requires ReadEntry(b).Read?
    ensures var r := ReadEntry(b);
            && EntryFits(r.value) && |r.value.command| <= MAX_COMMAND_BYTES
            && (flag != 0) == r.value.isNoOp && b == EntryBytes(r.value, flag) + r.rest
  {
    hide ReadU64, U64;
    U64Read(b);
    var b1 := ReadU64(b).rest;
    flag := b1[0];
    var b2 := b1[1..];
    assert b1 == [flag] + b2;
    U64Read(b2);
    var b3, size := ReadU64(b2).rest, ReadU64(b2).value;
    assert b3 == b3[..size] + b3[size..];
    var r := ReadEntry(b);
    assert b == EntryBytes(r.value, flag) + r.rest;
  }

  lemma {:induction false} EntriesRead(b: seq<byte>, n: nat) returns (flags: seq<byte>)
    requires ReadEntries(b, n).Read?
    ensures var r := ReadEntries(b, n);
            && |r.value| == n && FlagsSay(r.value, flags) && CommandsFit(r.value)
            && (forall i | 0 <= i < n :: EntryFits(r.value[i]))
            && b == EntriesBytes(r.value, flags) + r.rest
    decreases n
  {
    hide ReadEntry, EntryBytes, EntryFits;
    if n == 0 {
      flags := [];
    } else {
      var flag := EntryRead(b);
      var e, rest := ReadEntry(b).value, ReadEntry(b).rest;
      var more := EntriesRead(rest, n - 1);
      flags := [flag] + more;
      var log := ReadEntries(rest, n - 1).value;
      assert ([e] + log)[1..] == log && flags[1..] == more;
      assert EntriesBytes([e] + log, flags) == EntryBytes(e, flag) + EntriesBytes(log, more);
    }
  }

  lemma VoteRead(b: seq<byte>) returns (flag: byte)
    requires ReadVote(b).Read?
    ensures var r := ReadVote(b);
            && (flag != 0) == r.value.Some? && (r.value.Some? ==> r.value.value < U64_LIMIT)
            && b == VoteBytes(r.value, flag) + r.rest
  {
    hide ReadU64, U64;
    flag := b[0];
    assert b == [flag] + b[1..];
    if flag != 0 {
      U64Read(b[1..]);
    }
  }

  lemma LogRead(b: seq<byte>) returns (flags: seq<byte>)
    requires ReadLog(b).Read?
    ensures var r := ReadLog(b);
            && |r.value| <= MAX_ENTRIES && FlagsSay(r.value, flags) && CommandsFit(r.value)
            && (forall i | 0 <= i < |r.value| :: EntryFits(r.value[i]))
            && b == U64(|r.value|) + EntriesBytes(r.value, flags) + r.rest
  {
    hide ReadU64, U64, EntriesBytes, ReadEntries, EntryFits;
    U64Read(b);
    var count, b1 := ReadU64(b).value, ReadU64(b).rest;
    flags := EntriesRead(b1, count);
    var r := ReadLog(b);
    assert b == U64(count) + (EntriesBytes(r.value, flags) + r.rest);
  }

  /** Everything the decoder accepts is a spelling of the state it returns, which is representable. */
  lemma DecodedIsSpelling(b: seq<byte>) returns (voteFlag: byte, flags: seq<byte>)
    requires Decode(b).Ok?
    ensures var s := Decode(b).value;
            Encodable(s) && Spells(s, voteFlag, flags) && b == Spelling(s, voteFlag, flags)
  {
    hide ReadU64, U64, EntriesBytes, VoteBytes, ReadVote, ReadLog, EntryFits;
    var s := Decode(b).value;
    var b0 := b[|MAGIC|..];
    U64Read(b0);
    var b1 := ReadU64(b0).rest;
    voteFlag := VoteRead(b1);
    var b2 := ReadVote(b1).rest;
    flags := LogRead(b2);
    assert b == MAGIC + b0;
    assert b == Spelling(s, voteFlag, flags) + [];
  }

  /** The accepted language, both ways: a byte string decodes to a state exactly when it is one of
      that state's spellings and the state is representable. */
  lemma DecodeAcceptsExactly(b: seq<byte>, s: HardState)
    ensures Decode(b) == Ok(s) <==>
            Encodable(s) &&
            exists voteFlag: byte, flags: seq<byte> ::
              Spells(s, voteFlag, flags) && b == Spelling(s, voteFlag, flags)
  {
    hide ReadState, Spelling, Encodable;
    if Decode(b) == Ok(s) {
      var voteFlag, flags := DecodedIsSpelling(b);
      assert Spells(s, voteFlag, flags) && b == Spelling(s, voteFlag, flags);
    }
    if Encodable(s) {
      forall voteFlag: byte, flags: seq<byte> | Spells(s, voteFlag, flags) && b == Spelling(s, voteFlag, flags)
        ensures Decode(b) == Ok(s)
      {
        DecodeSpelling(s, voteFlag, flags);
      }
    }
  }

  /** An accepted byte string followed by anything is refused for its trailing data. */
  lemma ExtensionRefused(b: seq<byte>, more: seq<byte>)
    requires Decode(b).Ok? && more != []
    ensures Decode(b + more) == Err(TrailingData)
  {
    hide ReadState, Spelling;
    var voteFlag, flags := DecodedIsSpelling(b);
    ReadsSpelling(Decode(b).value, voteFlag, flags, more);
  }

  /** No proper prefix of an accepted byte string is accepted. */
  lemma PrefixRefused(b: seq<byte>, k: nat)
    requires Decode(b).Ok? && k < |b|
    ensures Decode(b[..k]).Err?
  {
    hide Decode;
    assert b == b[..k] + b[k..];
    if Decode(b[..k]).Ok? {
      ExtensionRefused(b[..k], b[k..]);
    }
  }

  // ---- The encoder and decoder as they run ----------------------------------------------------------

  lemma {:induction false} EntriesSnoc(log: seq<LogEntry>, flags: seq<byte>)
    requires log != [] && |flags| == |log|
    ensures var n := |log| - 1;
            EntriesBytes(log, flags) == EntriesBytes(log[..n], flags[..n]) + EntryBytes(log[n], flags[n])
  {
    hide EntryBytes;
    var n := |log| - 1;
    if n == 0 {
      assert EntriesBytes(log[1..], flags[1..]) == [];
    } else {
      EntriesSnoc(log[1..], flags[1..]);
      assert log[1..][..n - 1] == log[..n][1..] && flags[1..][..n - 1] == flags[..n][1..];
      assert EntriesBytes(log[..n], flags[..n])
          == EntryBytes(log[0], flags[0]) + EntriesBytes(log[..n][1..], flags[..n][1..]);
    }
  }

  function HeaderBytes(s: HardState): seq<byte> {
    MAGIC + U64(s.term) + VoteBytes(s.vote, if s.vote.Some? then 1 else 0) + U64(|s.log|)
  }

  method EncodeHeader(state: HardState) returns (bytes: seq<byte>)
    requires FitsTypes(state) && |state.log| <= MAX_ENTRIES
    ensures bytes == HeaderBytes(state)
  {
    hide U64;
    bytes := AppendUint64(MAGIC, state.term);
    bytes := bytes + [if state.vote.Some? then 1 else 0];
    if state.vote.Some? {
      bytes := AppendUint64(bytes, state.vote.value);
    }
    bytes := AppendUint64(bytes, |state.log|);
  }

  method AppendEntries(output: seq<byte>, log: seq<LogEntry>) returns (r: Result<seq<byte>>)
    requires forall i | 0 <= i < |log| :: EntryFits(log[i])
    ensures r.Ok? <==> CommandsFit(log)
    ensures r.Ok? ==> r.value == output + EntriesBytes(log, Flags(log))
    ensures r.Err? ==> r.error == BadSize
  {
    hide EntryBytes, EntryFits;
    var bytes := output;
    ghost var flags := Flags(log);
    for i := 0 to |log|
      invariant CommandsFit(log[..i])
      invariant bytes == output + EntriesBytes(log[..i], flags[..i])
    {
      if |log[i].command| > MAX_COMMAND_BYTES {
        return Err(BadSize);
      }
      bytes := AppendEntry(bytes, log[i]);
      assert log[..i + 1][..i] == log[..i] && flags[..i + 1][..i] == flags[..i];
      EntriesSnoc(log[..i + 1], flags[..i + 1]);
    }
    assert log[..|log|] == log && flags[..|log|] == flags;
    return Ok(bytes);
  }

  method EncodeState(state: HardState) returns (r: Result<seq<byte>>)
    requires FitsTypes(state)
    ensures r.Ok? <==> Encodable(state)
    ensures r.Ok? ==> r.value == Encode(state)
    ensures r.Err? ==> r.error == if |state.log| > MAX_ENTRIES then TooManyEntries else BadSize
  {
    hide U64, VoteBytes, EntriesBytes, EntryFits;
    if |state.log| > MAX_ENTRIES {
      return Err(TooManyEntries);
    }
    var bytes := EncodeHeader(state);
    r := AppendEntries(bytes, state.log);
  }

  method AppendEntry(output: seq<byte>, entry: LogEntry) returns (r: seq<byte>)
    requires EntryFits(entry)
    ensures r == output + EntryBytes(entry, if entry.isNoOp then 1 else 0)
  {
    r := AppendUint64(output, entry.term);
    r := r + [if entry.isNoOp then 1 else 0];
    r := AppendUint64(r, |entry.command|);
    r := r + entry.command;
  }

  method ReadEntryAt(bytes: seq<byte>, offset: nat) returns (r: Parsed<LogEntry>, next: nat)
    requires offset <= |bytes|
    ensures r == ReadEntry(bytes[offset..])
    ensures r.Read? ==> next <= |bytes| && r.rest == bytes[next..]
  {
    hide ReadU64;
    var term, o1 := ReadAt(bytes, offset);
    next := offset;
    if term.Fail? {
      return Fail(term.error), next;
    }
    if o1 >= |bytes| {
      return Fail(Truncated), next;
    }
    var isNoOp := bytes[o1] != 0;
    assert bytes[o1..][1..] == bytes[o1 + 1..];
    var size, o2 := ReadAt(bytes, o1 + 1);
    if size.Fail? {
      return Fail(size.error), next;
    }
    if size.value > MAX_COMMAND_BYTES || size.value > |bytes| - o2 {
      return Fail(BadSize), next;
    }
    next := o2 + size.value;
    assert bytes[o2..][..size.value] == bytes[o2..next];
    assert bytes[o2..][size.value..] == bytes[next..];
    return Read(LogEntry(term.value, bytes[o2..next], isNoOp), bytes[next..]), next;
  }

  /** Entries read so far followed by the outcome of reading the others. */
  function Continue(log: seq<LogEntry>, p: Parsed<seq<LogEntry>>): Parsed<seq<LogEntry>> {
    if p.Fail? then p else Read(log + p.value, p.rest)
  }

  method ReadEntriesAt(bytes: seq<byte>, offset: nat, count: nat) returns (r: Parsed<seq<LogEntry>>, next: nat)
    requires offset <= |bytes|
    ensures r == ReadEntries(bytes[offset..], count)
    ensures r.Read? ==> next <= |bytes| && r.rest == bytes[next..]
  {
    hide ReadEntry;
    var log := [];
    next := offset;
    ghost var all := ReadEntries(bytes[offset..], count);
    assert all.Read? ==> [] + all.value == all.value;
    for index := 0 to count
      invariant next <= |bytes|
      invariant ReadEntries(bytes[offset..], count) == Continue(log, ReadEntries(bytes[next..], count - index))
    {
      var entry, after := ReadEntryAt(bytes, next);
      if entry.Fail? {
        return Fail(entry.error), next;
      }
      ghost var others := ReadEntries(bytes[after..], count - index - 1);
      assert others.Read? ==> log + ([entry.value] + others.value) == log + [entry.value] + others.value;
      log := log + [entry.value];
      next := after;
    }
    assert log + [] == log;
    return Read(log, bytes[next..]), next;
  }

  method DecodeState(bytes: seq<byte>) returns (r: Result<HardState>)
    ensures r == Decode(bytes)
  {
    hide ReadU64, ReadEntries;
    if !(MAGIC <= bytes) {
      return Err(UnsupportedFormat);
    }
    var term, offset := ReadAt(bytes, |MAGIC|);
    if term.Fail? {
      return Err(term.error);
    }
    if offset >= |bytes| {
      return Err(Truncated);
    }
    var hasVote := bytes[offset] != 0;
    assert bytes[offset..][1..] == bytes[offset + 1..];
    offset := offset + 1;
    var vote: Option<NodeId> := None;
    if hasVote {
      var v, o := ReadAt(bytes, offset);
      if v.Fail? {
        return Err(v.error);
      }
      vote, offset := Some(v.value), o;
    }
    var count, o := ReadAt(bytes, offset);
    if count.Fail? {
      return Err(count.error);
    }
    if count.value > MAX_ENTRIES {
      return Err(TooManyEntries);
    }
    var log, end := ReadEntriesAt(bytes, o, count.value);
    if log.Fail? {
      return Err(log.error);
    }
    if end != |bytes| {
      return Err(TrailingData);
    }
    return Ok(HardState(term.value, vote, log.value));
  }
}
