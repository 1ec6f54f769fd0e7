/** Little-endian 64-bit integers as the codecs write and read them. */
module ByteOrder {
  import opened RaftTypes

  const U64_LIMIT: nat := 0x1_0000_0000_0000_0000

  datatype CodecError =
    | Unreadable
    | UnsupportedFormat
    | Truncated
    | TooManyEntries
    | BadSize
    | DuplicateKey
    | TrailingData

  datatype Result<+T> = Ok(value: T) | Err(error: CodecError)

  /** A value and the bytes that follow it. */
  datatype Parsed<+T> = Read(value: T, rest: seq<byte>) | Fail(error: CodecError)

  function Pow256(k: nat): nat {
    if k == 0 then 1 else 256 * Pow256(k - 1)
  }

  /** The k low-order bytes of v, least significant first. */
  function LittleEndian(v: nat, k: nat): seq<byte> {
    if k == 0 then [] else [v % 256] + LittleEndian(v / 256, k - 1)
  }

  function FromLittleEndian(b: seq<byte>): nat {
    if b == [] then 0 else b[0] + 256 * FromLittleEndian(b[1..])
  }

  function U64(v: nat): seq<byte> {
    LittleEndian(v, 8)
  }

  lemma Pow256Eight()
    ensures Pow256(8) == U64_LIMIT
  {
    assert Pow256(4) == 0x1_0000_0000;
    assert Pow256(8) == 256 * (256 * (256 * (256 * Pow256(4))));
  }

  lemma {:induction false} LittleEndianSize(v: nat, k: nat)
    ensures |LittleEndian(v, k)| == k
  {
    if k > 0 {
      LittleEndianSize(v / 256, k - 1);
    }
  }

  lemma {:induction false} DecodesEncoded(v: nat, k: nat)
    requires v < Pow256(k)
    ensures FromLittleEndian(LittleEndian(v, k)) == v
  {
    if k > 0 {
      DecodesEncoded(v / 256, k - 1);
      var b := LittleEndian(v, k);
      assert b[1..] == LittleEndian(v / 256, k - 1);
    }
  }

  lemma {:induction false} EncodesDecoded(b: seq<byte>)
    ensures FromLittleEndian(b) < Pow256(|b|)
    ensures LittleEndian(FromLittleEndian(b), |b|) == b
  {
    if b != [] {
      EncodesDecoded(b[1..]);
      var v := FromLittleEndian(b);
      assert v % 256 == b[0] && v / 256 == FromLittleEndian(b[1..]);
      assert b == [b[0]] + b[1..];
    }
  }

  lemma {:induction false} Pow256Positive(i: nat)
    ensures Pow256(i) > 0
  {
    if i > 0 {
      Pow256Positive(i - 1);
    }
  }

  /** Byte i of the encoding is what shifting right by 8i bits and masking gives. */
  lemma {:induction false} ByteByShift(v: nat, k: nat, i: nat)
    requires i < k
    ensures |LittleEndian(v, k)| == k && Pow256(i) > 0 && LittleEndian(v, k)[i] == v / Pow256(i) % 256
  {
    LittleEndianSize(v, k);
    Pow256Positive(i);
    if i > 0 {
      ByteByShift(v / 256, k - 1, i - 1);
      DivideTwice(v, Pow256(i - 1));
    }
  }

  lemma DivideTwice(v: nat, d: nat)
    requires d > 0
    ensures v / 256 / d == v / (256 * d)
  {
    var q := v / (256 * d);
    var r := v % (256 * d);
    assert v == 256 * d * q + r;
    var q1 := r / 256;
    assert r == 256 * q1 + r % 256;
    assert v == 256 * (d * q + q1) + r % 256 by {
      assert 256 * d * q == 256 * (d * q);
    }
    assert v / 256 == d * q + q1;
    assert q1 < d;
    QuotientIs(d * q + q1, d, q, q1);
  }

  lemma QuotientIs(n: nat, d: nat, q: nat, r: nat)
    requires d > 0 && n == d * q + r && r < d
    ensures n / d == q
  {
    var z := n / d - q;
    assert d * z == d * (n / d) - d * q;
    SmallMultiple(d, z);
  }

  lemma SmallMultiple(d: int, z: int)
    requires -d < d * z < d
    ensures z == 0
  {
    assert z >= 1 ==> d * z >= d;
    assert z <= -1 ==> d * z <= -d;
  }

  /** Adding byte i shifted left by 8i bits extends the value read so far. */
  lemma {:induction false} ReadOneMore(b: seq<byte>, i: nat)
    requires i < |b|
    ensures FromLittleEndian(b[..i + 1]) == FromLittleEndian(b[..i]) + b[i] * Pow256(i)
  {
    if i == 0 {
      assert b[..1][1..] == [];
    } else {
      ReadOneMore(b[1..], i - 1);
      assert b[..i + 1][1..] == b[1..][..i];
      assert b[..i][1..] == b[1..][..i - 1];
      var p := Pow256(i - 1);
      assert b[i] * (256 * p) == 256 * (b[i] * p);
    }
  }

  /** Append the eight bytes of a value, least significant first. */
  method AppendUint64(output: seq<byte>, value: nat) returns (r: seq<byte>)
    requires value < U64_LIMIT
    ensures r == output + U64(value)
  {
    r := output;
    LittleEndianSize(value, 8);
    for i := 0 to 8
      invariant r == output + U64(value)[..i]
    {
      ByteByShift(value, 8, i);
      r := r + [value / Pow256(i) % 256];
    }
  }

  /** Read the eight bytes at an offset. */
  method ReadUint64(input: seq<byte>, offset: nat) returns (value: nat)
    requires offset + 8 <= |input|
    ensures value == FromLittleEndian(input[offset..offset + 8]) && value < U64_LIMIT
  {
    var field := input[offset..offset + 8];
    value := 0;
    for i := 0 to 8
      invariant value == FromLittleEndian(field[..i])
    {
      ReadOneMore(field, i);
      value := value + input[offset + i] * Pow256(i);
    }
    assert field[..8] == field;
    EncodesDecoded(field);
    Pow256Eight();
  }

  function ReadU64(b: seq<byte>): Parsed<nat> {
    if |b| < 8 then Fail(Truncated) else Read(FromLittleEndian(b[..8]), b[8..])
  }

  lemma ReadsU64(v: nat, rest: seq<byte>)
    requires v < U64_LIMIT
    ensures ReadU64(U64(v) + rest) == Read(v, rest)
  {
    LittleEndianSize(v, 8);
    Pow256Eight();
    DecodesEncoded(v, 8);
    assert (U64(v) + rest)[..8] == U64(v);
  }

  lemma U64Read(b: seq<byte>)
    requires ReadU64(b).Read?
    ensures var r := ReadU64(b); r.value < U64_LIMIT && b == U64(r.value) + r.rest
  {
    EncodesDecoded(b[..8]);
    Pow256Eight();
  }

  /** A bounds-checked read at any offset: it succeeds exactly when eight bytes are left there. */
  method ReadAt(bytes: seq<byte>, offset: nat) returns (r: Parsed<nat>, next: nat)
    ensures r == if offset > |bytes| then Fail(Truncated) else ReadU64(bytes[offset..])
    ensures r.Read? <==> offset + 8 <= |bytes|
    ensures r.Read? ==> next == offset + 8 && r.rest == bytes[next..]
  {
    next := offset;
    if offset > |bytes| || |bytes| - offset < 8 {
      return Fail(Truncated), next;
    }
    var value := ReadUint64(bytes, offset);
    assert bytes[offset..][..8] == bytes[offset..offset + 8];
    next := offset + 8;
    return Read(value, bytes[next..]), next;
  }
}
