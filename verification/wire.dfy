/** Readers and writers that advance along a stream, as the codecs use them, proved to do what the
    functions of `Codecs` and `Tlv` say. Where the program passes a callback, a codec is passed. */
module Wire {
  import opened Wrappers
  import opened Codecs
  import opened Tlv

  class Writer {
    var bytes: Bytes

    constructor ()
      ensures bytes == []
    {
      bytes := [];
    }

    method Put(b: Bytes)
      modifies this
      ensures bytes == old(bytes) + b
    {
      bytes := bytes + b;
    }

    method PutBigSize(x: nat)
      requires x < Codecs.U64
      modifies this
      ensures bytes == old(bytes) + WriteBigSize(x)
    {
      Limits();
      if x <= 0xFC {
        Put(BigEndian(x, 1));
      } else if x <= 0xFFFF {
        Put([0xFD]);
        Put(BigEndian(x, 2));
      } else if x <= 0xFFFF_FFFF {
        Put([0xFE]);
        Put(BigEndian(x, 4));
      } else {
        Put([0xFF]);
        Put(BigEndian(x, 8));
      }
    }

    /** `write_vec_cb`. */
    method PutVec<T>(c: Codec<T>, vs: seq<T>)
      requires |vs| < Codecs.U64
      modifies this
      ensures bytes == old(bytes) + WriteVec(c, vs)
    {
      PutBigSize(|vs|);
      PutItems(c, vs);
    }

    /** `write_vec_u16_cb`. */
    method PutVecU16<T>(c: Codec<T>, vs: seq<T>)
      modifies this
      ensures bytes == old(bytes) + WriteVecU16(c, vs)
    {
      Limits();
      Put(BigEndian(|vs| % Codecs.U16, 2));
      PutItems(c, vs);
    }

    method PutItems<T>(c: Codec<T>, vs: seq<T>)
      modifies this
      ensures bytes == old(bytes) + WriteAll(c, vs)
    {
      for i := 0 to |vs|
        invariant bytes + WriteAll(c, vs[i..]) == old(bytes) + WriteAll(c, vs)
      {
        Put(c.write(vs[i]));
        assert vs[i..][1..] == vs[i + 1..];
      }
      assert vs[|vs|..] == [];
    }

    /** `write_as_tlv`. */
    method PutAsTlv<T>(c: Codec<T>, typeId: nat, v: T)
      requires typeId < Codecs.U16 && |c.write(v)| < Codecs.U64
      modifies this
      ensures bytes == old(bytes) + ToTlv(c, typeId, v)
    {
      PutBigSize(typeId);
      PutBigSize(|c.write(v)|);
      Put(c.write(v));
    }
  }

  /** A reader over the bytes that are left. What is left after a failed read does not matter. */
  class Reader {
    var rest: Bytes

    constructor (b: Bytes)
      ensures rest == b
    {
      rest := b;
    }

    method Int(size: nat) returns (r: Option<nat>)
      modifies this
      ensures r.Some? <==> ReadInt(old(rest), size).Some?
      ensures r.Some? ==> ReadInt(old(rest), size) == Some((r.value, rest))
    {
      if |rest| < size { return None; }
      var x: nat := 0;
      for i := 0 to size
        invariant x == FromBigEndian(rest[..i])
      {
        assert rest[..i + 1][..i] == rest[..i];
        x := x * 256 + rest[i];
      }
      rest := rest[size..];
      return Some(x);
    }

    method With<T>(c: Codec<T>) returns (r: Option<T>)
      modifies this
      ensures r.Some? <==> c.read(old(rest)).Some?
      ensures r.Some? ==> c.read(old(rest)) == Some((r.value, rest))
    {
      match c.read(rest) {
        case None => return None;
        case Some((v, left)) =>
          rest := left;
          return Some(v);
      }
    }

    method BigSize() returns (r: Option<nat>)
      modifies this
      ensures r.Some? <==> ReadBigSize(old(rest)).Some?
      ensures r.Some? ==> ReadBigSize(old(rest)) == Some((r.value, rest))
    {
      if rest == [] { return None; }
      var n := rest[0];
      rest := rest[1..];
      if n == 0xFF {
        r := Int(8);
        if r.Some? && r.value < 0x1_0000_0000 { return None; }
      } else if n == 0xFE {
        r := Int(4);
        if r.Some? && r.value < 0x1_0000 { return None; }
      } else if n == 0xFD {
        r := Int(2);
        if r.Some? && r.value < 0xFD { return None; }
      } else {
        return Some(n);
      }
    }

    method Items<T>(c: Codec<T>, n: nat) returns (r: Option<seq<T>>)
      modifies this
      ensures r.Some? <==> ReadN(c, n, old(rest)).Some?
      ensures r.Some? ==> ReadN(c, n, old(rest)) == Some((r.value, rest))
    {
      var vs: seq<T> := [];
      PrependNothing(ReadN(c, n, rest));
      for i := 0 to n
        invariant ReadN(c, n, old(rest)) == Prepend(vs, ReadN(c, n - i, rest))
      {
        ReadOneMore(c, vs, n - i, rest);
        var next := With(c);
        if next.None? { return None; }
        vs := vs + [next.value];
      }
      assert vs + [] == vs;
      return Some(vs);
    }

    /** `read_vec_cb`. */
    method Vec<T>(c: Codec<T>) returns (r: Option<seq<T>>)
      modifies this
      ensures r.Some? <==> ReadVec(c, old(rest)).Some?
      ensures r.Some? ==> ReadVec(c, old(rest)) == Some((r.value, rest))
    {
      var len := BigSize();
      if len.None? || len.value > MAX_VEC_SIZE { return None; }
      r := Items(c, len.value);
    }

    /** `read_vec_u16_cb`. */
    method VecU16<T>(c: Codec<T>) returns (r: Option<seq<T>>)
      modifies this
      ensures r.Some? <==> ReadVecU16(c, old(rest)).Some?
      ensures r.Some? ==> ReadVecU16(c, old(rest)) == Some((r.value, rest))
    {
      var len := Int(2);
      if len.None? { return None; }
      r := Items(c, len.value);
    }

    /** `read_tlv_body`, through a reader of its own over the window. */
    method TlvBody<T>(c: Codec<T>, len: nat) returns (r: Option<T>)
      modifies this
      ensures r.Some? <==> ReadBody(c, old(rest), len).Some?
      ensures r.Some? ==> ReadBody(c, old(rest), len) == Some((r.value, rest))
    {
      var body := new Reader(if len <= |rest| then rest[..len] else rest);
      var v := body.With(c);
      if v.None? { return None; }
      if body.rest != [] || len > |rest| { return None; }
      rest := rest[len..];
      return v;
    }

    /** `read_as_tlv`. */
    method AsTlv<T>(c: Codec<T>, typeId: nat) returns (r: Option<T>)
      modifies this
      ensures r.Some? <==> ReadAsTlv(c, typeId, old(rest)).Some?
      ensures r.Some? ==> ReadAsTlv(c, typeId, old(rest)) == Some((r.value, rest))
    {
      var found := BigSize();
      if found.None? || found.value != typeId { return None; }
      var len := BigSize();
      if len.None? { return None; }
      r := TlvBody(c, len.value);
    }
  }

  /** The items read so far, put before the outcome of reading the others. */
  function Prepend<T>(vs: seq<T>, r: Option<(seq<T>, Bytes)>): Option<(seq<T>, Bytes)> {
    match r
    case None => None
    case Some((more, rest)) => Some((vs + more, rest))
  }

  lemma PrependNothing<T>(r: Option<(seq<T>, Bytes)>)
    ensures Prepend([], r) == r
  {
    if r.Some? {
      assert [] + r.value.0 == r.value.0;
    }
  }

  lemma ReadFinished<T>(c: Codec<T>, vs: seq<T>, b: Bytes)
    ensures Prepend(vs, ReadN(c, 0, b)) == Some((vs, b))
  {
    assert vs + [] == vs;
  }

  lemma ReadOneMore<T>(c: Codec<T>, vs: seq<T>, n: nat, b: Bytes)
    requires n > 0
    ensures Prepend(vs, ReadN(c, n, b))
              == match c.read(b)
                 case None => None
                 case Some((v, rest)) => Prepend(vs + [v], ReadN(c, n - 1, rest))
  {
    if c.read(b).Some? {
      var (v, rest) := c.read(b).value;
      var r := ReadN(c, n - 1, rest);
      if r.Some? {
        assert vs + ([v] + r.value.0) == vs + [v] + r.value.0;
      }
    }
  }

  /** `from_tlv_bytes_or_legacy`. */
  method ReadTlvOrLegacy<T>(c: Codec<T>, typeId: nat, b: Bytes) returns (r: Option<T>)
    ensures r == FromTlvOrLegacy(c, typeId, b)
  {
    var record := new Reader(b);
    r := record.AsTlv(c, typeId);
    if r.Some? && record.rest == [] { return r; }
    var bare := new Reader(b);
    r := bare.With(c);
    if r.Some? && bare.rest != [] { return None; }
  }

  // ---------- Hash maps ----------

  function PairCodec<K, V>(k: Codec<K>, v: Codec<V>): Codec<(K, V)> {
    Codec((p: (K, V)) => k.write(p.0) + v.write(p.1), b => ReadPair(k, v, b), (p: (K, V)) => k.valid(p.0) && v.valid(p.1))
  }

  function ReadPair<K, V>(k: Codec<K>, v: Codec<V>, b: Bytes): Option<((K, V), Bytes)> {
    match k.read(b)
    case None => None
    case Some((key, rest)) =>
      match v.read(rest)
      case None => None
      case Some((value, left)) => Some(((key, value), left))
  }

  function Inserted<K(==), V>(pairs: seq<(K, V)>): map<K, V> {
    if pairs == [] then map[]
    else Inserted(pairs[..|pairs| - 1])[pairs[|pairs| - 1].0 := pairs[|pairs| - 1].1]
  }

  function ReadMap<K(==), V>(k: Codec<K>, v: Codec<V>, b: Bytes): Option<(map<K, V>, Bytes)> {
    match ReadInt(b, 8)
    case None => None
    case Some((len, rest)) =>
      match ReadN(PairCodec(k, v), len, rest)
      case None => None
      case Some((pairs, left)) => Some((Inserted(pairs), left))
  }

  /** `write_hash_map`, with the entries in the order of one iteration. */
  function WriteMap<K, V>(k: Codec<K>, v: Codec<V>, entries: seq<(K, V)>): Bytes
    requires |entries| < Codecs.U64
  {
    Limits();
    BigEndian(|entries|, 8) + WriteAll(PairCodec(k, v), entries)
  }

  lemma NothingInserted<K, V>()
    ensures Inserted<K, V>([]) == map[]
  {
  }

  lemma InsertedSnoc<K, V>(pairs: seq<(K, V)>, pair: (K, V))
    ensures Inserted(pairs + [pair]) == Inserted(pairs)[pair.0 := pair.1]
  {
    assert (pairs + [pair])[..|pairs|] == pairs;
  }

  method ReadEntry<K, V>(k: Codec<K>, v: Codec<V>, reader: Reader) returns (r: Option<(K, V)>)
    modifies reader
    ensures r.Some? <==> PairCodec(k, v).read(old(reader.rest)).Some?
    ensures r.Some? ==> PairCodec(k, v).read(old(reader.rest)) == Some((r.value, reader.rest))
  {
    var key := reader.With(k);
    if key.None? { return None; }
    var value := reader.With(v);
    if value.None? { return None; }
    return Some((key.value, value.value));
  }

  /** `read_hash_map`. */
  method ReadHashMap<K(==), V>(k: Codec<K>, v: Codec<V>, reader: Reader) returns (r: Option<map<K, V>>)
    modifies reader
    ensures r.Some? <==> ReadMap(k, v, old(reader.rest)).Some?
    ensures r.Some? ==> ReadMap(k, v, old(reader.rest)) == Some((r.value, reader.rest))
  {
    ghost var c := PairCodec(k, v);
    hide PairCodec, ReadN, ReadInt, Prepend, Inserted;
    NothingInserted<K, V>();
    var len := reader.Int(8);
    if len.None? { return None; }
    ghost var start := reader.rest;
    ghost var pairs: seq<(K, V)> := [];
    var m: map<K, V> := map[];
    PrependNothing(ReadN(c, len.value, start));
    for i := 0 to len.value
      invariant m == Inserted(pairs)
      invariant ReadN(c, len.value, start) == Prepend(pairs, ReadN(c, len.value - i, reader.rest))
    {
      ReadOneMore(c, pairs, len.value - i, reader.rest);
      var entry := ReadEntry(k, v, reader);
      if entry.None? { return None; }
      InsertedSnoc(pairs, entry.value);
      m := m[entry.value.0 := entry.value.1];
      pairs := pairs + [entry.value];
    }
    ReadFinished(c, pairs, reader.rest);
    return Some(m);
  }

  /** An iteration over a map: every entry once. */
  ghost predicate Iterates<K(!new), V(!new)>(entries: seq<(K, V)>, m: map<K, V>) {
    && (forall i, j :: 0 <= i < j < |entries| ==> entries[i].0 != entries[j].0)
    && (forall i :: 0 <= i < |entries| ==> entries[i].0 in m && m[entries[i].0] == entries[i].1)
    && forall key :: key in m ==> exists i :: 0 <= i < |entries| && entries[i].0 == key
  }

  lemma {:induction false} InsertedEntries<K(!new), V(!new)>(entries: seq<(K, V)>)
    requires forall i, j :: 0 <= i < j < |entries| ==> entries[i].0 != entries[j].0
    ensures forall i :: 0 <= i < |entries| ==> entries[i].0 in Inserted(entries) && Inserted(entries)[entries[i].0] == entries[i].1
    ensures forall key :: key in Inserted(entries) ==> exists i :: 0 <= i < |entries| && entries[i].0 == key
  {
    if entries != [] {
      InsertedEntries(entries[..|entries| - 1]);
    }
  }

  lemma PairRoundTrips<K(!new), V(!new)>(k: Codec<K>, v: Codec<V>)
    requires RoundTrips(k) && RoundTrips(v)
    ensures RoundTrips(PairCodec(k, v))
  {
    var c := PairCodec(k, v);
    forall p: (K, V), rest: Bytes | c.valid(p) ensures c.read(c.write(p) + rest) == Some((p, rest)) {
      assert c.write(p) + rest == k.write(p.0) + (v.write(p.1) + rest);
    }
  }

  /** A map comes back the same from every order in which it may be written. */
  lemma MapRoundTrip<K(!new), V(!new)>(k: Codec<K>, v: Codec<V>, m: map<K, V>, entries: seq<(K, V)>, rest: Bytes)
    requires RoundTrips(k) && RoundTrips(v) && Iterates(entries, m) && |entries| < Codecs.U64
    requires forall key :: key in m ==> k.valid(key) && v.valid(m[key])
    ensures ReadMap(k, v, WriteMap(k, v, entries) + rest) == Some((m, rest))
  {
    hide RoundTrips, BigEndian, PairCodec, Inserted, ReadN, WriteAll, ReadInt;
    Limits();
    var c := PairCodec(k, v);
    var body := WriteAll(c, entries) + rest;
    assert WriteMap(k, v, entries) + rest == BigEndian(|entries|, 8) + body;
    IntegerIff(BigEndian(|entries|, 8) + body, |entries|, 8, body);
    EntriesRead(k, v, m, entries, rest);
    InsertedIteration(entries, m);
  }

  lemma EntriesRead<K(!new), V(!new)>(k: Codec<K>, v: Codec<V>, m: map<K, V>, entries: seq<(K, V)>, rest: Bytes)
    requires RoundTrips(k) && RoundTrips(v) && Iterates(entries, m)
    requires forall key :: key in m ==> k.valid(key) && v.valid(m[key])
    ensures ReadN(PairCodec(k, v), |entries|, WriteAll(PairCodec(k, v), entries) + rest) == Some((entries, rest))
  {
    hide RoundTrips, PairCodec, ReadN, AllValid;
    var c := PairCodec(k, v);
    PairRoundTrips(k, v);
    EntriesValid(k, v, m, entries);
    ReadWhatWasWritten(c, entries, |entries|, rest);
    assert entries[..|entries|] == entries && entries[|entries|..] == [];
    assert WriteAll(c, []) + rest == rest;
  }

  lemma InsertedIteration<K(!new), V(!new)>(entries: seq<(K, V)>, m: map<K, V>)
    requires Iterates(entries, m)
    ensures Inserted(entries) == m
  {
    hide Inserted;
    InsertedEntries(entries);
  }

  lemma EntriesValid<K(!new), V(!new)>(k: Codec<K>, v: Codec<V>, m: map<K, V>, entries: seq<(K, V)>)
    requires Iterates(entries, m) && forall key :: key in m ==> k.valid(key) && v.valid(m[key])
    ensures AllValid(PairCodec(k, v), entries)
  {
  }
}
