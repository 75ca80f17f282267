/** The offer message, which is read in two formats: the present one starts with a protocol version,
    the older one goes straight to the contract flags. */
module OfferMessage {
  import opened Wrappers
  import opened Codecs
  import opened Wire

  const OFFER_TYPE: nat := 42778

  /** `terms` stands for the fields after the chain hash, which both formats share. */
  datatype OfferDlc<T> = OfferDlc(protocolVersion: nat, contractFlags: Byte, chainHash: Bytes, terms: T)

  predicate WellFormed<T>(o: OfferDlc<T>) {
    o.protocolVersion < Codecs.U32 && |o.chainHash| == 32
  }

  predicate CurrentVersion(version: nat) {
    1 <= version <= 10
  }

  function Write<T>(c: Codec<T>, o: OfferDlc<T>): Bytes
    requires WellFormed(o)
  {
    Limits();
    BigEndian(OFFER_TYPE, 2) + BigEndian(o.protocolVersion, 4) + [o.contractFlags] + o.chainHash + c.write(o.terms)
  }

  /** What a writer of the older format produced. */
  function WriteOld<T>(c: Codec<T>, flags: Byte, chainHash: Bytes, terms: T): Bytes {
    Limits();
    BigEndian(OFFER_TYPE, 2) + [flags] + chainHash + c.write(terms)
  }

  function ReadTerms<T>(c: Codec<T>, version: nat, flags: Byte, chainHash: Bytes, b: Bytes): Option<(OfferDlc<T>, Bytes)> {
    match c.read(b)
    case None => None
    case Some((terms, rest)) => Some((OfferDlc(version, flags, chainHash, terms), rest))
  }

  /** Five bytes are read ahead: their first four are a version if they are between 1 and 10, and otherwise
      the flags and the beginning of the chain hash. */
  function Read<T>(c: Codec<T>, b: Bytes): Option<(OfferDlc<T>, Bytes)> {
    match ReadInt(b, 2)
    case None => None
    case Some((typeId, r)) =>
      if typeId != OFFER_TYPE || |r| < 5 then None
      else
        var version := FromBigEndian(r[..4]);
        if CurrentVersion(version) then
          if |r| < 37 then None else ReadTerms(c, version, r[4], r[5..37], r[37..])
        else
          if |r| < 33 then None else ReadTerms(c, 1, r[0], r[1..5] + r[5..33], r[33..])
  }

  method ReadOffer<T>(c: Codec<T>, reader: Reader) returns (r: Option<OfferDlc<T>>)
    modifies reader
    ensures r.Some? <==> Read(c, old(reader.rest)).Some?
    ensures r.Some? ==> Read(c, old(reader.rest)) == Some((r.value, reader.rest))
  {
    var typeId := reader.Int(2);
    if typeId.None? || typeId.value != OFFER_TYPE { return None; }
    ghost var after := reader.rest;
    var peek := TakeExact(reader, 5);
    if peek.None? { return None; }
    assert peek.value[..4] == after[..4];
    var version := FromBigEndian(peek.value[..4]);
    var flags: Byte;
    var chainHash: Bytes;
    if 1 <= version <= 10 {
      var hash := TakeExact(reader, 32);
      if hash.None? { return None; }
      assert hash.value == after[5..37] && reader.rest == after[37..];
      flags, chainHash := peek.value[4], hash.value;
    } else {
      version := 1;
      var remaining := TakeExact(reader, 28);
      if remaining.None? { return None; }
      assert remaining.value == after[5..33] && reader.rest == after[33..] && peek.value[1..5] == after[1..5];
      flags, chainHash := peek.value[0], peek.value[1..5] + remaining.value;
    }
    var terms := reader.With(c);
    if terms.None? { return None; }
    return Some(OfferDlc(version, flags, chainHash, terms.value));
  }

  method TakeExact(reader: Reader, n: nat) returns (r: Option<Bytes>)
    modifies reader
    ensures r.Some? <==> n <= |old(reader.rest)|
    ensures r.Some? ==> r.value == old(reader.rest)[..n] && reader.rest == old(reader.rest)[n..]
  {
    if |reader.rest| < n { return None; }
    r := Some(reader.rest[..n]);
    reader.rest := reader.rest[n..];
  }

  lemma TypeIsRead(b: Bytes)
    ensures ReadInt((Limits(); BigEndian(OFFER_TYPE, 2)) + b, 2) == Some((OFFER_TYPE, b))
  {
    Limits();
    IntegerIff(BigEndian(OFFER_TYPE, 2) + b, OFFER_TYPE, 2, b);
  }

  /** An offer is read back exactly when its version is one of those that the reader takes for a version. */
  lemma OfferRoundTripIff<T(!new)>(c: Codec<T>, o: OfferDlc<T>, rest: Bytes)
    requires RoundTrips(c) && WellFormed(o) && c.valid(o.terms)
    ensures Read(c, Write(c, o) + rest) == Some((o, rest)) <==> 1 <= o.protocolVersion <= 10
  {
    Limits();
    var version := BigEndian(o.protocolVersion, 4);
    var r := version + [o.contractFlags] + o.chainHash + (c.write(o.terms) + rest);
    assert Write(c, o) + rest == BigEndian(OFFER_TYPE, 2) + r;
    TypeIsRead(r);
    assert r[..4] == version;
    IntegerRoundTrip(o.protocolVersion, 4);
    assert r[4] == o.contractFlags && r[5..37] == o.chainHash && r[37..] == c.write(o.terms) + rest;
  }

  /** The older format is read as version 1, field by field, when its first four bytes are not a version;
      and in no other case does the reader take it for the older format. */
  lemma OldFormatIsRead<T(!new)>(c: Codec<T>, flags: Byte, chainHash: Bytes, terms: T, rest: Bytes)
    requires RoundTrips(c) && |chainHash| == 32 && c.valid(terms)
    ensures var start := FromBigEndian([flags] + chainHash[..3]);
            var r := Read(c, WriteOld(c, flags, chainHash, terms) + rest);
            if 1 <= start <= 10
            then r.Some? ==> r.value.0.protocolVersion == start && r.value.0.contractFlags == chainHash[3]
                             && r.value.0.chainHash[..28] == chainHash[4..]
            else r == Some((OfferDlc(1, flags, chainHash, terms), rest))
  {
    Limits();
    var body := c.write(terms) + rest;
    var r := [flags] + chainHash + body;
    assert WriteOld(c, flags, chainHash, terms) + rest == BigEndian(OFFER_TYPE, 2) + r;
    TypeIsRead(r);
    assert r[..4] == [flags] + chainHash[..3];
    if CurrentVersion(FromBigEndian(r[..4])) {
      if |r| >= 37 {
        assert r[4] == chainHash[3];
        assert r[5..37][..28] == chainHash[4..];
      }
    } else {
      assert r[1..5] + r[5..33] == chainHash;
      assert r[33..] == body;
    }
  }
}
