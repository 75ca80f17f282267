/** TLV records: a type and a length ahead of a body that must fill that length exactly. */
module Tlv {
  import opened Wrappers
  import opened Codecs

  // ---------- What is written and read ----------

  function WriteHeader(typeId: nat, len: nat): Bytes
    requires typeId < Codecs.U16 && len < U64
  {
    WriteBigSize(typeId) + WriteBigSize(len)
  }

  /** `write_as_tlv` and `to_tlv_bytes`. */
  function ToTlv<T>(c: Codec<T>, typeId: nat, v: T): Bytes
    requires typeId < Codecs.U16 && |c.write(v)| < U64
  {
    WriteHeader(typeId, |c.write(v)|) + c.write(v)
  }

  /** `read_tlv_body`: the body is read through a window of the declared length and must use it up. */
  function ReadBody<T>(c: Codec<T>, b: Bytes, len: nat): Option<(T, Bytes)> {
    var window := if len <= |b| then b[..len] else b;
    match c.read(window)
    case None => None
    case Some((v, left)) => if left == [] && len <= |b| then Some((v, b[len..])) else None
  }

  /** `read_as_tlv`. */
  function ReadAsTlv<T>(c: Codec<T>, typeId: nat, b: Bytes): Option<(T, Bytes)> {
    match ReadBigSize(b)
    case None => None
    case Some((found, afterType)) =>
      if found != typeId then None
      else
        match ReadBigSize(afterType)
        case None => None
        case Some((len, body)) => ReadBody(c, body, len)
  }

  /** `from_tlv_bytes`: nothing may follow the record. */
  function FromTlv<T>(c: Codec<T>, typeId: nat, b: Bytes): Option<T> {
    match ReadAsTlv(c, typeId, b)
    case None => None
    case Some((v, rest)) => if rest == [] then Some(v) else None
  }

  /** `from_tlv_bytes_or_legacy`: a buffer that is no record is read as a bare body. */
  function FromTlvOrLegacy<T>(c: Codec<T>, typeId: nat, b: Bytes): Option<T> {
    if FromTlv(c, typeId, b).Some? then FromTlv(c, typeId, b)
    else
      match c.read(b)
      case None => None
      case Some((v, rest)) => if rest == [] then Some(v) else None
  }

  // ---------- Records ----------

  /** A header of the given type, followed by a body of the length it declares. */
  ghost predicate Framed(typeId: nat, body: Bytes, b: Bytes)
    requires typeId < Codecs.U16
  {
    |body| < U64 && b == WriteHeader(typeId, |body|) + body
  }

  predicate HeaderReads(b: Bytes, typeId: nat, len: nat, tail: Bytes) {
    && ReadBigSize(b).Some? && ReadBigSize(b).value.0 == typeId
    && ReadBigSize(ReadBigSize(b).value.1) == Some((len, tail))
  }

  lemma HeaderIff(b: Bytes, typeId: nat, len: nat, tail: Bytes)
    requires typeId < Codecs.U16 && len < U64
    ensures HeaderReads(b, typeId, len, tail) <==> b == WriteHeader(typeId, len) + tail
  {
    hide WriteBigSize, ReadBigSize;
    var afterType := WriteBigSize(len) + tail;
    assert WriteHeader(typeId, len) + tail == WriteBigSize(typeId) + afterType;
    BigSizeIff(b, typeId, afterType);
    BigSizeIff(afterType, len, tail);
    if HeaderReads(b, typeId, len, tail) {
      BigSizeIff(ReadBigSize(b).value.1, len, tail);
    }
  }

  lemma ReadFindsBody<T(!new)>(c: Codec<T>, typeId: nat, b: Bytes) returns (body: Bytes)
    requires typeId < Codecs.U16 && ReadAsTlv(c, typeId, b).Some?
    ensures |body| < U64 && b == WriteHeader(typeId, |body|) + body + ReadAsTlv(c, typeId, b).value.1
    ensures c.read(body) == Some((ReadAsTlv(c, typeId, b).value.0, []))
  {
    hide ReadBigSize, WriteHeader;
    var (len, tail) := ReadBigSize(ReadBigSize(b).value.1).value;
    HeaderIff(b, typeId, len, tail);
    body := tail[..len];
    assert tail == body + tail[len..];
    assert b == WriteHeader(typeId, |body|) + body + tail[len..];
  }

  lemma BodyIsRead<T(!new)>(c: Codec<T>, typeId: nat, body: Bytes, v: T, rest: Bytes)
    requires typeId < Codecs.U16 && |body| < U64 && c.read(body) == Some((v, []))
    ensures ReadAsTlv(c, typeId, WriteHeader(typeId, |body|) + body + rest) == Some((v, rest))
  {
    hide ReadBigSize, WriteHeader;
    var b, tail := WriteHeader(typeId, |body|) + body + rest, body + rest;
    assert b == WriteHeader(typeId, |body|) + tail;
    HeaderIff(b, typeId, |body|, tail);
    assert tail[..|body|] == body && tail[|body|..] == rest;
  }

  /** Reading a record: the stream holds a framed body that the body codec reads to its end, and what
      follows the record is left as it was. */
  lemma ReadAsTlvIff<T(!new)>(c: Codec<T>, typeId: nat, b: Bytes, v: T, rest: Bytes)
    requires typeId < Codecs.U16
    ensures ReadAsTlv(c, typeId, b) == Some((v, rest)) <==>
              exists body :: |body| < U64 && b == WriteHeader(typeId, |body|) + body + rest && c.read(body) == Some((v, []))
  {
    hide ReadAsTlv, WriteHeader;
    if ReadAsTlv(c, typeId, b) == Some((v, rest)) {
      var body := ReadFindsBody(c, typeId, b);
    }
    if body :| |body| < U64 && b == WriteHeader(typeId, |body|) + body + rest && c.read(body) == Some((v, [])) {
      BodyIsRead(c, typeId, body, v, rest);
    }
  }

  /** The bytes of a record are accepted exactly when they are a framed body that is read to its end. */
  lemma FromTlvIff<T(!new)>(c: Codec<T>, typeId: nat, b: Bytes, v: T)
    requires typeId < Codecs.U16
    ensures FromTlv(c, typeId, b) == Some(v) <==> exists body :: Framed(typeId, body, b) && c.read(body) == Some((v, []))
  {
    ReadAsTlvIff(c, typeId, b, v, []);
    if FromTlv(c, typeId, b) == Some(v) {
      var body :| |body| < U64 && b == WriteHeader(typeId, |body|) + body + [] && c.read(body) == Some((v, []));
      assert Framed(typeId, body, b);
    }
    if body :| Framed(typeId, body, b) && c.read(body) == Some((v, [])) {
      assert b == WriteHeader(typeId, |body|) + body + [];
    }
  }

  /** Reading inverts writing, and leaves the rest of a stream untouched. */
  lemma TlvRoundTrip<T(!new)>(c: Codec<T>, typeId: nat, v: T, rest: Bytes)
    requires RoundTrips(c) && c.valid(v) && typeId < Codecs.U16 && |c.write(v)| < U64
    ensures ReadAsTlv(c, typeId, ToTlv(c, typeId, v) + rest) == Some((v, rest))
    ensures FromTlv(c, typeId, ToTlv(c, typeId, v)) == Some(v)
  {
    var body := c.write(v);
    assert body + [] == body;
    assert c.read(body) == Some((v, []));
    ReadAsTlvIff(c, typeId, ToTlv(c, typeId, v) + rest, v, rest);
    FromTlvIff(c, typeId, ToTlv(c, typeId, v), v);
    assert Framed(typeId, body, ToTlv(c, typeId, v));
  }

  /** With a canonical body, only the bytes that writing produces are accepted. */
  lemma TlvCanonical<T(!new)>(c: Codec<T>, typeId: nat, b: Bytes)
    requires Canonical(c) && typeId < Codecs.U16 && FromTlv(c, typeId, b).Some?
    ensures var v := FromTlv(c, typeId, b).value; c.valid(v) && |c.write(v)| < U64 && b == ToTlv(c, typeId, v)
  {
    var v := FromTlv(c, typeId, b).value;
    FromTlvIff(c, typeId, b, v);
    var body :| Framed(typeId, body, b) && c.read(body) == Some((v, []));
    assert body == c.write(v) + [];
    assert body == c.write(v);
  }

  /** One header cannot be the start of another one of the same type. */
  lemma HeadersDiffer(typeId: nat, len: nat, body: Bytes, otherLen: nat, otherBody: Bytes)
    requires typeId < Codecs.U16 && len < U64 && otherLen < U64
    requires WriteHeader(typeId, len) + body == WriteHeader(typeId, otherLen) + otherBody
    ensures len == otherLen && body == otherBody
  {
    hide ReadBigSize, WriteHeader;
    var b := WriteHeader(typeId, len) + body;
    HeaderIff(b, typeId, len, body);
    HeaderIff(b, typeId, otherLen, otherBody);
  }

  /** No record is a proper prefix of another one, whatever the body codec: truncations and extensions
      of an accepted record are refused. */
  lemma TlvPrefixFree<T(!new)>(c: Codec<T>, typeId: nat, b: Bytes, more: Bytes)
    requires typeId < Codecs.U16
    requires FromTlv(c, typeId, b).Some? && FromTlv(c, typeId, b + more).Some?
    ensures more == []
  {
    hide WriteHeader, FromTlv;
    FromTlvIff(c, typeId, b, FromTlv(c, typeId, b).value);
    FromTlvIff(c, typeId, b + more, FromTlv(c, typeId, b + more).value);
    var body :| Framed(typeId, body, b);
    var longer :| Framed(typeId, longer, b + more);
    assert b + more == WriteHeader(typeId, |body|) + (body + more);
    HeadersDiffer(typeId, |body|, body + more, |longer|, longer);
  }

  /** A record of another type is refused. */
  lemma WrongTypeRefused<T(!new), S>(c: Codec<T>, typeId: nat, d: Codec<S>, otherId: nat, v: S)
    requires typeId < Codecs.U16 && otherId < Codecs.U16 && typeId != otherId && |d.write(v)| < U64
    ensures ReadAsTlv(c, typeId, ToTlv(d, otherId, v)) == None
  {
    var b := ToTlv(d, otherId, v);
    assert b == WriteBigSize(otherId) + (WriteBigSize(|d.write(v)|) + d.write(v));
    BigSizeIff(b, otherId, WriteBigSize(|d.write(v)|) + d.write(v));
  }

  /** Records written one after the other are read back one after the other. */
  lemma {:induction false} StreamRoundTrip<T(!new)>(c: Codec<T>, typeId: nat, vs: seq<T>, rest: Bytes)
    requires RoundTrips(c) && AllValid(c, vs) && typeId < Codecs.U16
    requires forall v: T :: c.valid(v) ==> |c.write(v)| < U64
    ensures ReadN(RecordCodec(c, typeId), |vs|, WriteAll(RecordCodec(c, typeId), vs) + rest) == Some((vs, rest))
  {
    var records := RecordCodec(c, typeId);
    forall v: T, more: Bytes | records.valid(v) ensures records.read(records.write(v) + more) == Some((v, more)) {
      TlvRoundTrip(c, typeId, v, more);
    }
    ReadWhatWasWritten(records, vs, |vs|, rest);
    assert vs[..|vs|] == vs && vs[|vs|..] == [];
    assert WriteAll(records, []) + rest == rest;
  }

  /** The records of one type as a codec. */
  function RecordCodec<T>(c: Codec<T>, typeId: nat): Codec<T>
    requires typeId < Codecs.U16
  {
    Codec(v => if |c.write(v)| < U64 then ToTlv(c, typeId, v) else [], b => ReadAsTlv(c, typeId, b), c.valid)
  }

  /** The legacy fallback reads a bare body back as long as the body does not itself look like a record
      of this type; the records themselves always come back. */
  lemma LegacyFallback<T(!new)>(c: Codec<T>, typeId: nat, v: T)
    requires RoundTrips(c) && c.valid(v) && typeId < Codecs.U16 && |c.write(v)| < U64
    ensures FromTlvOrLegacy(c, typeId, ToTlv(c, typeId, v)) == Some(v)
    ensures (forall body :: !Framed(typeId, body, c.write(v))) ==> FromTlvOrLegacy(c, typeId, c.write(v)) == Some(v)
    ensures FromTlvOrLegacy(c, typeId, c.write(v)) == Some(v) <==>
              forall body :: Framed(typeId, body, c.write(v)) && c.read(body).Some? && c.read(body).value.1 == [] ==>
                c.read(body).value.0 == v
  {
    TlvRoundTrip(c, typeId, v, []);
    var b := c.write(v);
    assert b + [] == b;
    assert c.read(b) == Some((v, []));
    if FromTlv(c, typeId, b).Some? {
      FromTlvIff(c, typeId, b, FromTlv(c, typeId, b).value);
      var body :| Framed(typeId, body, b) && c.read(body) == Some((FromTlv(c, typeId, b).value, []));
      forall other | Framed(typeId, other, b) ensures other == body {
        HeadersDiffer(typeId, |body|, body, |other|, other);
      }
    } else {
      forall body | Framed(typeId, body, b) && c.read(body).Some? && c.read(body).value.1 == [] ensures false {
        FromTlvIff(c, typeId, b, c.read(body).value.0);
      }
    }
  }
}
