/** The wire codecs of the DLC messages: big-endian integers, BigSize (Appendix A of BOLT 1), vectors,
    options and TLV records. A decoder gives the value it read and the bytes it left. */
module Codecs {
  import opened Wrappers

  type Byte = n: nat | n < 256
  type Bytes = seq<Byte>

  const MAX_VEC_SIZE: nat := 1000000

  // ---------- Big-endian integers ----------

  function Limit(size: nat): (n: nat)
    ensures n > 0
  {
    if size == 0 then 1 else 256 * Limit(size - 1)
  }

  const U8: nat := 0x100
  const U16: nat := 0x1_0000
  const U32: nat := 0x1_0000_0000
  const U64: nat := 0x1_0000_0000_0000_0000

  lemma Limits()
    ensures Limit(1) == U8 && Limit(2) == U16 && Limit(4) == U32 && Limit(8) == U64
  {
    assert Limit(3) == 0x100_0000;
    assert Limit(5) == 0x100_0000_0000;
    assert Limit(6) == 0x1_0000_0000_0000;
    assert Limit(7) == 0x100_0000_0000_0000;
  }

  function BigEndian(x: nat, size: nat): (b: Bytes)
    requires x < Limit(size)
    ensures |b| == size
  {
    if size == 0 then [] else BigEndian(x / 256, size - 1) + [x % 256]
  }

  function FromBigEndian(b: Bytes): (x: nat)
    ensures x < Limit(|b|)
  {
    if b == [] then 0 else FromBigEndian(b[..|b| - 1]) * 256 + b[|b| - 1]
  }

  lemma {:induction false} IntegerRoundTrip(x: nat, size: nat)
    requires x < Limit(size)
    ensures FromBigEndian(BigEndian(x, size)) == x
  {
    if size > 0 {
      IntegerRoundTrip(x / 256, size - 1);
      assert BigEndian(x, size)[..size - 1] == BigEndian(x / 256, size - 1);
    }
  }

  lemma {:induction false} IntegerCanonical(b: Bytes)
    ensures BigEndian(FromBigEndian(b), |b|) == b
  {
    if b != [] {
      IntegerCanonical(b[..|b| - 1]);
      assert FromBigEndian(b) / 256 == FromBigEndian(b[..|b| - 1]);
    }
  }

  function ReadInt(b: Bytes, size: nat): (r: Option<(nat, Bytes)>)
    ensures r.Some? ==> r.value.0 < Limit(size) && size <= |b| && r.value.1 == b[size..]
  {
    if |b| < size then None else Some((FromBigEndian(b[..size]), b[size..]))
  }

  /** An integer is read exactly where its encoding stands. */
  lemma IntegerIff(b: Bytes, x: nat, size: nat, rest: Bytes)
    requires x < Limit(size)
    ensures ReadInt(b, size) == Some((x, rest)) <==> b == BigEndian(x, size) + rest
  {
    if |b| >= size {
      IntegerCanonical(b[..size]);
      IntegerRoundTrip(x, size);
      assert b == b[..size] + b[size..];
    }
  }

  // ---------- BigSize ----------

  function WriteBigSize(x: nat): (b: Bytes)
    requires x < U64
    ensures b != []
  {
    Limits();
    if x <= 0xFC then BigEndian(x, 1)
    else if x <= 0xFFFF then [0xFD] + BigEndian(x, 2)
    else if x <= 0xFFFF_FFFF then [0xFE] + BigEndian(x, 4)
    else [0xFF] + BigEndian(x, 8)
  }

  /** The value of a longer form is refused when a shorter form exists. */
  function ReadLongForm(b: Bytes, size: nat, least: nat): (r: Option<(nat, Bytes)>)
    ensures r.Some? ==> least <= r.value.0 < Limit(size)
  {
    match ReadInt(b, size)
    case None => None
    case Some((x, rest)) => if x < least then None else Some((x, rest))
  }

  function ReadBigSize(b: Bytes): (r: Option<(nat, Bytes)>)
    ensures r.Some? ==> r.value.0 < U64
  {
    Limits();
    if b == [] then None
    else if b[0] == 0xFF then ReadLongForm(b[1..], 8, U32)
    else if b[0] == 0xFE then ReadLongForm(b[1..], 4, U16)
    else if b[0] == 0xFD then ReadLongForm(b[1..], 2, 0xFD)
    else Some((b[0], b[1..]))
  }

  /** BigSize is canonical: reading accepts exactly the encodings that writing produces, and gives back the
      value and everything that follows it. */
  lemma BigSizeIff(b: Bytes, x: nat, rest: Bytes)
    requires x < U64
    ensures ReadBigSize(b) == Some((x, rest)) <==> b == WriteBigSize(x) + rest
  {
    Limits();
    if b != [] {
      var t := b[1..];
      assert b == [b[0]] + t;
      if x <= 0xFC {
        assert BigEndian(x, 1) == [x] by { assert BigEndian(x / 256, 0) == []; }
        assert BigEndian(x, 1) + rest == [x] + rest;
        assert b[0] == 0xFD || b[0] == 0xFE || b[0] == 0xFF || (b == [x] + rest <==> b[0] == x && t == rest);
      } else if x <= 0xFFFF {
        LongFormIff(b, 0xFD, t, x, 2, rest);
      } else if x <= 0xFFFF_FFFF {
        LongFormIff(b, 0xFE, t, x, 4, rest);
      } else {
        LongFormIff(b, 0xFF, t, x, 8, rest);
      }
    }
  }

  lemma LongFormIff(b: Bytes, marker: Byte, t: Bytes, x: nat, size: nat, rest: Bytes)
    requires b != [] && t == b[1..] && x < Limit(size)
    ensures b == [marker] + BigEndian(x, size) + rest <==> b[0] == marker && ReadInt(t, size) == Some((x, rest))
  {
    IntegerIff(t, x, size, rest);
    var e := [marker] + BigEndian(x, size) + rest;
    assert e[1..] == BigEndian(x, size) + rest;
    assert b == [b[0]] + t;
    assert e == [marker] + e[1..];
  }

  // ---------- Codecs ----------

  /** A pair of a writer and a reader, and the values it is meant for. */
  datatype Codec<!T> = Codec(write: T -> Bytes, read: Bytes -> Option<(T, Bytes)>, valid: T -> bool)

  /** Reading gives back what was written, whatever follows it. */
  ghost predicate RoundTrips<T(!new)>(c: Codec<T>) {
    forall v: T, rest: Bytes :: c.valid(v) ==> c.read(c.write(v) + rest) == Some((v, rest))
  }

  /** Reading accepts nothing but what is written. */
  ghost predicate Canonical<T(!new)>(c: Codec<T>) {
    forall b: Bytes :: c.read(b).Some? ==>
      c.valid(c.read(b).value.0) && b == c.write(c.read(b).value.0) + c.read(b).value.1
  }

  // ---------- Vectors ----------

  function WriteAll<T>(c: Codec<T>, vs: seq<T>): Bytes {
    if vs == [] then [] else c.write(vs[0]) + WriteAll(c, vs[1..])
  }

  function ReadN<T>(c: Codec<T>, n: nat, b: Bytes): (r: Option<(seq<T>, Bytes)>)
    ensures r.Some? ==> |r.value.0| == n
  {
    if n == 0 then Some(([], b))
    else
      match c.read(b)
      case None => None
      case Some((v, rest)) =>
        match ReadN(c, n - 1, rest)
        case None => None
        case Some((vs, left)) => Some(([v] + vs, left))
  }

  predicate AllValid<T>(c: Codec<T>, vs: seq<T>) {
    forall i :: 0 <= i < |vs| ==> c.valid(vs[i])
  }

  function WriteVec<T>(c: Codec<T>, vs: seq<T>): Bytes
    requires |vs| < U64
  {
    WriteBigSize(|vs|) + WriteAll(c, vs)
  }

  function ReadVec<T>(c: Codec<T>, b: Bytes): Option<(seq<T>, Bytes)> {
    match ReadBigSize(b)
    case None => None
    case Some((len, rest)) => if len > MAX_VEC_SIZE then None else ReadN(c, len, rest)
  }

  /** The prefix of the `u16` form is the length cut to 16 bits. */
  function WriteVecU16<T>(c: Codec<T>, vs: seq<T>): Bytes {
    Limits();
    BigEndian(|vs| % U16, 2) + WriteAll(c, vs)
  }

  function ReadVecU16<T>(c: Codec<T>, b: Bytes): Option<(seq<T>, Bytes)> {
    match ReadInt(b, 2)
    case None => None
    case Some((len, rest)) => ReadN(c, len, rest)
  }

  lemma {:induction false} ReadWhatWasWritten<T(!new)>(c: Codec<T>, vs: seq<T>, n: nat, rest: Bytes)
    requires RoundTrips(c) && AllValid(c, vs) && n <= |vs|
    ensures ReadN(c, n, WriteAll(c, vs) + rest) == Some((vs[..n], WriteAll(c, vs[n..]) + rest))
  {
    if n == 0 {
      assert vs[0..] == vs;
    } else {
      var tail := WriteAll(c, vs[1..]) + rest;
      assert WriteAll(c, vs) + rest == c.write(vs[0]) + tail;
      assert c.read(c.write(vs[0]) + tail) == Some((vs[0], tail));
      hide RoundTrips, WriteAll;
      ReadWhatWasWritten(c, vs[1..], n - 1, rest);
      assert vs[1..][n - 1..] == vs[n..];
      assert [vs[0]] + vs[1..][..n - 1] == vs[..n];
    }
  }

  lemma {:induction false} WrittenIsWhatWasRead<T(!new)>(c: Codec<T>, n: nat, b: Bytes)
    requires Canonical(c) && ReadN(c, n, b).Some?
    ensures AllValid(c, ReadN(c, n, b).value.0)
    ensures b == WriteAll(c, ReadN(c, n, b).value.0) + ReadN(c, n, b).value.1
  {
    if n > 0 {
      var (v, rest) := c.read(b).value;
      WrittenIsWhatWasRead(c, n - 1, rest);
      var (vs, left) := ReadN(c, n - 1, rest).value;
      assert ([v] + vs)[1..] == vs;
      assert c.write(v) + (WriteAll(c, vs) + left) == c.write(v) + WriteAll(c, vs) + left;
    }
  }

  /** A vector is read back exactly when it does not exceed the largest size the reader allows. */
  lemma VecRoundTripIff<T(!new)>(c: Codec<T>, vs: seq<T>, rest: Bytes)
    requires RoundTrips(c) && AllValid(c, vs) && |vs| < U64
    ensures ReadVec(c, WriteVec(c, vs) + rest) == if |vs| <= MAX_VEC_SIZE then Some((vs, rest)) else None
  {
    var body := WriteAll(c, vs) + rest;
    assert WriteVec(c, vs) + rest == WriteBigSize(|vs|) + body;
    BigSizeIff(WriteBigSize(|vs|) + body, |vs|, body);
    if |vs| <= MAX_VEC_SIZE {
      ReadWhatWasWritten(c, vs, |vs|, rest);
      assert vs[..|vs|] == vs && vs[|vs|..] == [];
      assert WriteAll(c, []) + rest == rest;
    }
  }

  lemma VecCanonical<T(!new)>(c: Codec<T>, b: Bytes)
    requires Canonical(c) && ReadVec(c, b).Some?
    ensures var (vs, rest) := ReadVec(c, b).value; |vs| <= MAX_VEC_SIZE && AllValid(c, vs) && b == WriteVec(c, vs) + rest
  {
    var (len, body) := ReadBigSize(b).value;
    BigSizeIff(b, len, body);
    WrittenIsWhatWasRead(c, len, body);
    var (vs, rest) := ReadVec(c, b).value;
    assert WriteBigSize(len) + (WriteAll(c, vs) + rest) == WriteBigSize(len) + WriteAll(c, vs) + rest;
  }

  /** With a 16-bit prefix, a longer vector silently loses its length modulo 2^16: what is read back is the
      vector itself exactly below that size. */
  lemma VecU16RoundTrip<T(!new)>(c: Codec<T>, vs: seq<T>, rest: Bytes)
    requires RoundTrips(c) && AllValid(c, vs)
    ensures ReadVecU16(c, WriteVecU16(c, vs) + rest) == Some((vs[..|vs| % U16], WriteAll(c, vs[|vs| % U16..]) + rest))
    ensures vs[..|vs| % U16] == vs <==> |vs| < U16
  {
    Limits();
    var len := |vs| % U16;
    var body := WriteAll(c, vs) + rest;
    assert WriteVecU16(c, vs) + rest == BigEndian(len, 2) + body;
    IntegerIff(BigEndian(len, 2) + body, len, 2, body);
    ReadWhatWasWritten(c, vs, len, rest);
    assert |vs| >= U16 ==> |vs[..len]| < |vs|;
  }

  // ---------- Options ----------

  function WriteOption<T>(c: Codec<T>, v: Option<T>): Bytes {
    match v
    case None => [0]
    case Some(t) => [1] + c.write(t)
  }

  function ReadOption<T>(c: Codec<T>, b: Bytes): Option<(Option<T>, Bytes)> {
    if b == [] || b[0] > 1 then None
    else if b[0] == 0 then Some((None, b[1..]))
    else
      match c.read(b[1..])
      case None => None
      case Some((v, rest)) => Some((Some(v), rest))
  }

  lemma OptionIff<T(!new)>(c: Codec<T>, b: Bytes, v: Option<T>, rest: Bytes)
    requires RoundTrips(c) && Canonical(c) && (v.Some? ==> c.valid(v.value))
    ensures ReadOption(c, b) == Some((v, rest)) <==> b == WriteOption(c, v) + rest
  {
    if b != [] {
      assert b == [b[0]] + b[1..];
    }
    var e := WriteOption(c, v) + rest;
    assert e == [e[0]] + e[1..];
    if v.Some? {
      assert e[1..] == c.write(v.value) + rest;
    } else {
      assert e[1..] == rest;
    }
  }
}
