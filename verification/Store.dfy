/** `store.rs`: grant records as bytes, and the table that holds them. */
module Store {
  import opened Types
  import opened Utf8

  type StoredRecord = GrantRecord<seq<Scalar>>

  // ---- u64::to_be_bytes, u64::from_be_bytes ----

  function Power256(n: nat): nat {
    if n == 0 then 1 else 256 * Power256(n - 1)
  }

  function BigEndian(x: nat, n: nat): (b: seq<Byte>)
    ensures |b| == n
  {
    if n == 0 then [] else BigEndian(x / 256, n - 1) + [x % 256]
  }

  function FromBigEndian(b: seq<Byte>): (x: nat)
    ensures x < Power256(|b|)
  {
    if b == [] then 0 else FromBigEndian(b[..|b| - 1]) * 256 + b[|b| - 1]
  }

  lemma {:induction false} FromTo(x: nat, n: nat)
    requires x < Power256(n)
    ensures FromBigEndian(BigEndian(x, n)) == x
  {
    if n == 0 {
    } else {
      FromTo(x / 256, n - 1);
      assert BigEndian(x, n)[..n - 1] == BigEndian(x / 256, n - 1);
    }
  }

  lemma {:induction false} ToFrom(b: seq<Byte>)
    ensures BigEndian(FromBigEndian(b), |b|) == b
  {
    if b == [] {
    } else {
      var init := b[..|b| - 1];
      ToFrom(init);
      var x := FromBigEndian(b);
      assert x / 256 == FromBigEndian(init) && x % 256 == b[|b| - 1];
      assert b == init + [b[|b| - 1]];
    }
  }

  lemma Shift(x: nat, p: nat)
    ensures x * p * 256 == x * (256 * p)
  {
  }

  /** The first byte weighs most. */
  lemma {:induction false} FirstByteWeighsMost(b: seq<Byte>)
    requires b != []
    ensures FromBigEndian(b) == b[0] * Power256(|b| - 1) + FromBigEndian(b[1..])
  {
    if |b| == 1 {
      assert b[..0] == [] && b[1..] == [];
    } else {
      var init := b[..|b| - 1];
      FirstByteWeighsMost(init);
      Shift(b[0], Power256(|b| - 2));
      assert init[1..] == b[1..][..|b| - 2];
      assert b[1..][|b| - 2] == b[|b| - 1];
    }
  }

  function U64Bytes(x: U64): (b: seq<Byte>)
    ensures |b| == 8
  {
    BigEndian(x, 8)
  }

  lemma Power256Of8()
    ensures Power256(8) == U64_MAX + 1
  {
    assert Power256(4) == 0x1_0000_0000;
  }

  function BytesU64(b: seq<Byte>): U64
    requires |b| == 8
  {
    Power256Of8();
    FromBigEndian(b)
  }

  // ---- GrantRecord::encode, GrantRecord::decode ----

  function Encoded(r: StoredRecord): seq<Byte> {
    U64Bytes(r.spendingCap) + U64Bytes(r.expiry) + U64Bytes(r.issuedUnix) + Utf8.Encode(r.token)
  }

  datatype Error = BadLength | TokenNotUtf8

  datatype Result<T> = Ok(value: T) | Err(error: Error)

  function Decoded(b: seq<Byte>): Result<StoredRecord> {
    if |b| < 24 then Err(BadLength)
    else
      match Utf8.Decode(b[24..])
      case None => Err(TokenNotUtf8)
      case Some(token) =>
        Ok(GrantRecord(BytesU64(b[0..8]), BytesU64(b[8..16]), BytesU64(b[16..24]), token))
  }

  /** Cap, expiry, issue time, token, in this order. */
  lemma EncodedFields(r: StoredRecord)
    ensures var b := Encoded(r);
      && |b| >= 24
      && FromBigEndian(b[0..8]) == r.spendingCap
      && FromBigEndian(b[8..16]) == r.expiry
      && FromBigEndian(b[16..24]) == r.issuedUnix
      && Utf8.Decode(b[24..]) == Some(r.token)
  {
    var b := Encoded(r);
    Power256Of8();
    assert b[0..8] == U64Bytes(r.spendingCap);
    assert b[8..16] == U64Bytes(r.expiry);
    assert b[16..24] == U64Bytes(r.issuedUnix);
    assert b[24..] == Utf8.Encode(r.token);
    FromTo(r.spendingCap, 8);
    FromTo(r.expiry, 8);
    FromTo(r.issuedUnix, 8);
    DecodeEncode(r.token);
  }

  lemma DecodeInvertsEncode(r: StoredRecord)
    ensures Decoded(Encoded(r)) == Ok(r)
  {
    EncodedFields(r);
  }

  lemma EncodeInvertsDecode(b: seq<Byte>)
    requires Decoded(b).Ok?
    ensures Encoded(Decoded(b).value) == b
  {
    ToFrom(b[0..8]);
    ToFrom(b[8..16]);
    ToFrom(b[16..24]);
    EncodeDecode(b[24..], Decoded(b).value.token);
    assert b == b[0..8] + b[8..16] + b[16..24] + b[24..];
  }

  /** Four appends; what they make is read back as the record. */
  method EncodeRecord(r: StoredRecord) returns (v: seq<Byte>)
    ensures Decoded(v) == Ok(r)
    ensures |v| >= 24
    ensures FromBigEndian(v[0..8]) == r.spendingCap
    ensures FromBigEndian(v[8..16]) == r.expiry
    ensures FromBigEndian(v[16..24]) == r.issuedUnix
    ensures Utf8.Decode(v[24..]) == Some(r.token)
  {
    v := [];
    v := v + U64Bytes(r.spendingCap);
    v := v + U64Bytes(r.expiry);
    v := v + U64Bytes(r.issuedUnix);
    v := v + Utf8.Encode(r.token);
    assert v == Encoded(r);
    EncodedFields(r);
  }

  /** `decode` accepts exactly 24 bytes followed by well-formed UTF-8, and names
      which of the two is wrong. */
  lemma DecodeAcceptsExactly(b: seq<Byte>)
    ensures Decoded(b).Ok? <==> |b| >= 24 && IsUtf8(b[24..])
    ensures Decoded(b) == Err(BadLength) <==> |b| < 24
  {
    if |b| >= 24 { DecodesExactlyUtf8(b[24..]); }
  }

  // ---- The table ----

  class Store {
    var table: map<Address, seq<Byte>>

    ghost predicate Valid()
      reads this
    {
      forall a <- table :: Decoded(table[a]).Ok?
    }

    /** The table as a plain map from signers to records. */
    ghost function Records(): map<Address, StoredRecord>
      requires Valid()
      reads this
    {
      map a | a in table :: Decoded(table[a]).value
    }

    constructor ()
      ensures Valid() && Records() == map[]
    {
      table := map[];
    }

    method PutGrant(signer: Address, r: StoredRecord)
      modifies this
      ensures table == old(table)[signer := Encoded(r)]
      ensures old(Valid()) ==> Valid() && Records() == old(Records())[signer := r]
    {
      var raw := EncodeRecord(r);
      EncodeInvertsDecode(raw);
      table := table[signer := raw];
    }

    method GetGrant(signer: Address) returns (r: Result<Option<StoredRecord>>)
      ensures Valid() ==> r == Ok(if signer in Records() then Some(Records()[signer]) else None)
      ensures r.Err? <==> signer in table && !(|table[signer]| >= 24 && IsUtf8(table[signer][24..]))
      ensures r == Err(BadLength) <==> signer in table && |table[signer]| < 24
    {
      if signer !in table { return Ok(None); }
      DecodeAcceptsExactly(table[signer]);
      match Decoded(table[signer]) {
        case Ok(record) => return Ok(Some(record));
        case Err(e) => return Err(e);
      }
    }
  }

  // ---- Over any sequence of operations ----

  datatype Op = Put(signer: Address, record: StoredRecord) | Get(signer: Address)

  /** What the bytes answer. */
  function OnBytes(table: map<Address, seq<Byte>>, ops: seq<Op>): seq<Result<Option<StoredRecord>>>
    decreases |ops|
  {
    if ops == [] then [] else
      match ops[0]
      case Put(a, r) => OnBytes(table[a := Encoded(r)], ops[1..])
      case Get(a) =>
        [if a !in table then Ok(None)
         else match Decoded(table[a]) case Ok(r) => Ok(Some(r)) case Err(e) => Err(e)]
        + OnBytes(table, ops[1..])
  }

  /** What a plain map answers. */
  function OnMap(table: map<Address, StoredRecord>, ops: seq<Op>): seq<Result<Option<StoredRecord>>>
    decreases |ops|
  {
    if ops == [] then [] else
      match ops[0]
      case Put(a, r) => OnMap(table[a := r], ops[1..])
      case Get(a) => [Ok(if a in table then Some(table[a]) else None)] + OnMap(table, ops[1..])
  }

  /** Any sequence of puts and gets over the bytes agrees with a plain map. */
  lemma {:induction false} BytesAgreeWithMap(
    bytes: map<Address, seq<Byte>>, records: map<Address, StoredRecord>, ops: seq<Op>)
    requires bytes.Keys == records.Keys && forall a <- bytes :: Decoded(bytes[a]) == Ok(records[a])
    ensures OnBytes(bytes, ops) == OnMap(records, ops)
    decreases |ops|
  {
    if ops == [] {
    } else {
      match ops[0]
      case Put(a, r) =>
        DecodeInvertsEncode(r);
        BytesAgreeWithMap(bytes[a := Encoded(r)], records[a := r], ops[1..]);
      case Get(a) =>
        BytesAgreeWithMap(bytes, records, ops[1..]);
    }
  }
}
