/**
  The row codec of the CacheLib adapter (cachelib/cachelib_db.cc:196-254).

  A record is an ordered list of (name, value) byte strings. Each pair is
  stored as a 4-byte length, the name bytes, a 4-byte length and the value
  bytes; pairs are concatenated with no terminator and no record header.
  Lengths are unsigned 32-bit integers in little-endian byte order, the host
  order that the source's pointer casts rely on.

  The source decodes by advancing a raw pointer and only asserts that it stays
  in bounds. Here every read is bounds-checked and a declared length that runs
  past the end of the buffer is the decode error Truncated.
*/
module RowCodec {
  import opened Wrappers

  const U32_LIMIT: int := 0x1_0000_0000

  type Byte = b: int | 0 <= b < 256
  type Bytes = seq<Byte>

  /** One (name, value) pair of a record. */
  datatype Field = Field(name: Bytes, value: Bytes)

  type Record = seq<Field>

  datatype DecodeError =
    | Truncated          // a length prefix or a declared length runs past the end of the buffer
    | FieldCountMismatch // a full decode did not produce the expected number of pairs
    | IncompleteRecord   // a filtered decode did not match every requested name

  /* ---------- 32-bit little-endian lengths ---------- */

  function EncodeU32(n: int): (r: Bytes)
    requires 0 <= n < U32_LIMIT
  {
    var q1: int, q2: int, q3: int := n / 0x100, n / 0x1_0000, n / 0x100_0000;
    [n % 256, q1 % 256, q2 % 256, q3]
  }

  function DecodeU32(b: Bytes): (n: int)
    requires |b| == 4
    ensures 0 <= n < U32_LIMIT
  {
    b[0] as int + 0x100 * (b[1] as int) + 0x1_0000 * (b[2] as int) + 0x100_0000 * (b[3] as int)
  }

  lemma DecodeEncodeU32(n: int)
    requires 0 <= n < U32_LIMIT
    ensures |EncodeU32(n)| == 4 && DecodeU32(EncodeU32(n)) == n
  {
    var q1, q2, q3 := n / 0x100, n / 0x1_0000, n / 0x100_0000;
    assert q2 == q1 / 0x100;
    assert q3 == q2 / 0x100;
  }

  lemma EncodeDecodeU32(b: Bytes)
    requires |b| == 4
    ensures EncodeU32(DecodeU32(b)) == b
  {
    var n := DecodeU32(b);
    var b0: int, b1: int, b2: int, b3: int := b[0], b[1], b[2], b[3];
    assert n / 0x100 == b1 + 0x100 * b2 + 0x1_0000 * b3;
    assert n / 0x1_0000 == b2 + 0x100 * b3;
    assert n / 0x100_0000 == b3;
  }

  /* ---------- encoding ---------- */

  /** The source stores lengths as uint32_t, so every name and value must be shorter than 2^32. */
  predicate FieldFits(f: Field)
  {
    |f.name| < U32_LIMIT && |f.value| < U32_LIMIT
  }

  predicate WellSized(rec: Record)
  {
    forall i :: 0 <= i < |rec| ==> FieldFits(rec[i])
  }

  function Names(rec: Record): (names: seq<Bytes>)
  {
    if rec == [] then [] else [rec[0].name] + Names(rec[1..])
  }

  /** Sum over the pairs of 8 + |name| + |value|. */
  function EncodedSize(rec: Record): nat
  {
    if rec == [] then 0 else 8 + |rec[0].name| + |rec[0].value| + EncodedSize(rec[1..])
  }

  /**
    The bytes SerializeRow appends for one pair. The length is stored through
    a uint32_t, so a name or value of 2^32 bytes or more gets its length
    reduced modulo 2^32 while all of its bytes are still appended.
  */
  function EncodeField(f: Field): (data: Bytes)
    ensures |data| == 8 + |f.name| + |f.value|
  {
    EncodeU32(|f.name| % U32_LIMIT) + f.name + EncodeU32(|f.value| % U32_LIMIT) + f.value
  }

  function Encode(rec: Record): (data: Bytes)
    ensures |data| == EncodedSize(rec)
  {
    if rec == [] then [] else EncodeField(rec[0]) + Encode(rec[1..])
  }

  lemma {:induction false} EncodeAppend(a: Record, b: Record)
    ensures Encode(a + b) == Encode(a) + Encode(b)
  {
    if a == [] {
      assert a + b == b;
    } else {
      assert (a + b)[0] == a[0];
      assert (a + b)[1..] == a[1..] + b;
      EncodeAppend(a[1..], b);
    }
  }

  /** For a pair that fits, both lengths are written exactly. */
  lemma EncodeFieldExact(f: Field)
    requires FieldFits(f)
    ensures EncodeField(f) == EncodeU32(|f.name|) + f.name + EncodeU32(|f.value|) + f.value
  {
    var nl: int, vl: int := |f.name|, |f.value|;
    assert nl % U32_LIMIT == nl && vl % U32_LIMIT == vl;
  }

  /* ---------- decoding one pair ---------- */

  /**
    Reads one pair from the front of `data`; on success also returns the
    number of bytes it occupies. Each of the four reads checks that the
    bytes it needs are there.
  */
  function ParseField(data: Bytes): (r: Result<(Field, nat), DecodeError>)
    ensures r.Success? ==>
      FieldFits(r.value.0) && 8 <= r.value.1 <= |data| && data[..r.value.1] == EncodeField(r.value.0)
  {
    if |data| < 4 then Failure(Truncated)
    else
      var nameLen := DecodeU32(data[..4]);
      if |data| - 4 < nameLen then Failure(Truncated)
      else if |data| - 4 - nameLen < 4 then Failure(Truncated)
      else
        var valueLen := DecodeU32(data[4 + nameLen..8 + nameLen]);
        if |data| - 8 - nameLen < valueLen then Failure(Truncated)
        else
          var f := Field(data[4..4 + nameLen], data[8 + nameLen..8 + nameLen + valueLen]);
          var n := 8 + nameLen + valueLen;
          EncodeDecodeU32(data[..4]);
          EncodeDecodeU32(data[4 + nameLen..8 + nameLen]);
          EncodeFieldExact(f);
          assert data[..n] == data[..4] + f.name + data[4 + nameLen..8 + nameLen] + f.value;
          Success((f, n))
  }

  /** ParseField recognises every encoded pair, whatever follows it. */
  lemma ParseEncodedField(f: Field, rest: Bytes)
    requires FieldFits(f)
    ensures ParseField(EncodeField(f) + rest) == Success((f, |EncodeField(f)|))
  {
    var data := EncodeField(f) + rest;
    var nl, vl := |f.name|, |f.value|;
    DecodeEncodeU32(nl);
    DecodeEncodeU32(vl);
    EncodeFieldExact(f);
    assert data[..4] == EncodeU32(nl);
    assert data[4..4 + nl] == f.name;
    assert data[4 + nl..8 + nl] == EncodeU32(vl);
    assert data[8 + nl..8 + nl + vl] == f.value;
  }

  /* ---------- decoding a whole row ---------- */

  /** `prefix` followed by the decoded pairs, or the decode error unchanged. */
  function Prefixed(prefix: Record, r: Result<Record, DecodeError>): Result<Record, DecodeError>
  {
    match r
    case Success(rest) => Success(prefix + rest)
    case Failure(e) => Failure(e)
  }

  lemma PrefixedTwice(a: Record, b: Record, r: Result<Record, DecodeError>)
    ensures Prefixed(a, Prefixed(b, r)) == Prefixed(a + b, r)
  {
    if r.Success? {
      assert a + (b + r.value) == (a + b) + r.value;
    }
  }

  lemma EncodeCons(f: Field, rest: Record)
    requires FieldFits(f) && WellSized(rest)
    ensures WellSized([f] + rest) && Encode([f] + rest) == EncodeField(f) + Encode(rest)
  {
    assert ([f] + rest)[0] == f;
    assert ([f] + rest)[1..] == rest;
  }

  /** One decoding step: a pair read from the front, followed by an encoded rest, is the encoding of the longer record. */
  lemma DecodeStep(data: Bytes, f: Field, n: nat, rest: Record)
    requires FieldFits(f) && n <= |data| && data[..n] == EncodeField(f)
    requires WellSized(rest) && Encode(rest) == data[n..]
    ensures WellSized([f] + rest) && Encode([f] + rest) == data
  {
    EncodeCons(f, rest);
    assert data == data[..n] + data[n..];
  }

  /**
    Decodes every pair of `data`, left to right. A successful decode is
    exactly the record whose encoding is `data`.
  */
  function Decode(data: Bytes): (r: Result<Record, DecodeError>)
    ensures r.Success? ==> WellSized(r.value) && Encode(r.value) == data
    decreases |data|
  {
    if data == [] then Success([])
    else
      var step := ParseField(data);
      if step.Failure? then Failure(step.error)
      else
        var rest := Decode(data[step.value.1..]);
        if rest.Failure? then rest
        else
          DecodeStep(data, step.value.0, step.value.1, rest.value);
          Success([step.value.0] + rest.value)
  }

  /** Decoding a buffer whose first pair parses is that pair, then the decode of the bytes after it. */
  lemma DecodeUnfold(data: Bytes, f: Field, n: nat)
    requires ParseField(data) == Success((f, n))
    ensures Decode(data) == Prefixed([f], Decode(data[n..]))
  {
  }

  /**
    One step of the full decode at cursor `p`, when the pair there parses;
    `q` is the cursor after the pair.
  */
  lemma DecodeRowStep(acc: Record, data: Bytes, p: nat, f: Field, n: nat, q: nat)
    requires p < |data| && ParseField(data[p..]) == Success((f, n)) && q == p + n
    ensures q <= |data|
    ensures Prefixed(acc, Decode(data[p..])) == Prefixed(acc + [f], Decode(data[q..]))
  {
    assert data[p..][n..] == data[q..];
    DecodeUnfold(data[p..], f, n);
    PrefixedTwice(acc, [f], Decode(data[q..]));
  }

  /** Decoding an encoded record followed by more bytes yields the record, then whatever the rest decodes to. */
  lemma {:induction false} DecodeEncodedPrefix(rec: Record, tail: Bytes)
    requires WellSized(rec)
    ensures Decode(Encode(rec) + tail) == Prefixed(rec, Decode(tail))
  {
    if rec == [] {
      assert Encode(rec) + tail == tail;
      if Decode(tail).Success? {
        assert [] + Decode(tail).value == Decode(tail).value;
      }
    } else {
      var f := rec[0];
      var rest := Encode(rec[1..]) + tail;
      var data := EncodeField(f) + rest;
      assert Encode(rec) + tail == data;
      ParseEncodedField(f, rest);
      var n := |EncodeField(f)|;
      assert data[n..] == rest;
      DecodeUnfold(data, f, n);
      DecodeEncodedPrefix(rec[1..], tail);
      PrefixedTwice([f], rec[1..], Decode(tail));
      assert [f] + rec[1..] == rec;
    }
  }

  /** Round trip: decoding the encoding of a record gives the record back. */
  lemma DecodeEncode(rec: Record)
    requires WellSized(rec)
    ensures Decode(Encode(rec)) == Success(rec)
  {
    DecodeEncodedPrefix(rec, []);
    assert Encode(rec) + [] == Encode(rec);
    assert Decode([]) == Success([]);
    assert rec + [] == rec;
  }

  /** Round trip, in both directions: `data` decodes to `rec` exactly when `data` is the encoding of `rec`. */
  lemma DecodeIsInverseOfEncode(rec: Record, data: Bytes)
    requires WellSized(rec)
    ensures Decode(data) == Success(rec) <==> data == Encode(rec)
  {
    DecodeEncode(rec);
  }

  /** No prefix of an encoded pair parses as a pair: one of the four reads runs out of bytes. */
  lemma PartialFieldUnparsed(f: Field, n: nat)
    requires FieldFits(f) && 0 < n < |EncodeField(f)|
    ensures ParseField(EncodeField(f)[..n]) == Failure(Truncated)
  {
    var t := EncodeField(f)[..n];
    var nl, vl := |f.name|, |f.value|;
    DecodeEncodeU32(nl);
    DecodeEncodeU32(vl);
    EncodeFieldExact(f);
    if n >= 4 {
      assert t[..4] == EncodeU32(nl);
      if n >= 8 + nl {
        assert t[4 + nl..8 + nl] == EncodeU32(vl);
      }
    }
  }

  /** A pair cut short anywhere inside its encoding cannot be read. */
  lemma PartialFieldRejected(f: Field, n: nat)
    requires FieldFits(f) && 0 < n < |EncodeField(f)|
    ensures Decode(EncodeField(f)[..n]).Failure?
  {
    PartialFieldUnparsed(f, n);
  }

  /** A buffer whose last pair is truncated is rejected rather than read past its end. */
  lemma TruncatedRowRejected(rec: Record, f: Field, n: nat)
    requires WellSized(rec) && FieldFits(f) && 0 < n < |EncodeField(f)|
    ensures Decode(Encode(rec) + EncodeField(f)[..n]).Failure?
  {
    DecodeEncodedPrefix(rec, EncodeField(f)[..n]);
    PartialFieldRejected(f, n);
  }

  /* ---------- filtered decoding ---------- */

  /**
    The filtered decode: walks the pairs once and keeps a pair when its name
    equals the next requested name that is still unmatched. It stops as soon
    as every requested name is matched or the buffer is exhausted.
  */
  function DecodeFiltered(data: Bytes, fields: seq<Bytes>): (r: Result<Record, DecodeError>)
    ensures r.Success? ==> |r.value| <= |fields| && Names(r.value) == fields[..|r.value|]
    decreases |data|
  {
    if data == [] || fields == [] then Success([])
    else
      match ParseField(data)
      case Failure(e) => Failure(e)
      case Success(step) =>
        if step.0.name == fields[0] then
          var rest := DecodeFiltered(data[step.1..], fields[1..]);
          if rest.Success? then
            assert ([step.0] + rest.value)[1..] == rest.value;
            Prefixed([step.0], rest)
          else rest
        else DecodeFiltered(data[step.1..], fields)
  }

  /**
    One step of the filtered decode at cursor `p` with `k` names already
    matched, when the pair there parses: the pair is kept exactly when its
    name is the next requested one. `acc2`, `q` and `k2` are the state after
    the step.
  */
  lemma DecodeFilteredStep(acc: Record, data: Bytes, p: nat, fields: seq<Bytes>, k: nat,
                           f: Field, n: nat, acc2: Record, q: nat, k2: nat)
    requires p < |data| && k < |fields| && ParseField(data[p..]) == Success((f, n)) && q == p + n
    requires if f.name == fields[k] then acc2 == acc + [f] && k2 == k + 1 else acc2 == acc && k2 == k
    ensures q <= |data| && k2 <= |fields|
    ensures Prefixed(acc, DecodeFiltered(data[p..], fields[k..])) ==
      Prefixed(acc2, DecodeFiltered(data[q..], fields[k2..]))
  {
    assert fields[k..][0] == fields[k];
    assert data[p..][n..] == data[q..];
    if f.name == fields[k] {
      assert fields[k..][1..] == fields[k2..];
      PrefixedTwice(acc, [f], DecodeFiltered(data[q..], fields[k2..]));
    }
  }

  /** The filtered decode fails at cursor `p` when the pair there does not parse. */
  lemma DecodeFilteredFails(acc: Record, data: Bytes, p: nat, fields: seq<Bytes>, k: nat)
    requires p < |data| && k < |fields| && ParseField(data[p..]).Failure?
    ensures Prefixed(acc, DecodeFiltered(data[p..], fields[k..])) == Failure(ParseField(data[p..]).error)
  {
  }

  /** `a` is an in-order (not necessarily contiguous) subsequence of `b`. */
  predicate Subsequence<T(==)>(a: seq<T>, b: seq<T>)
    decreases |b|
  {
    a == [] || (b != [] && ((a[0] == b[0] && Subsequence(a[1..], b[1..])) || Subsequence(a, b[1..])))
  }

  /**
    Reference definition of the filtered decode on records: the greedy,
    in-order merge of the stored pairs against the requested names.
  */
  function Merge(rec: Record, fields: seq<Bytes>): (m: Record)
    ensures |m| <= |fields| && |m| <= |rec|
  {
    if rec == [] || fields == [] then []
    else if rec[0].name == fields[0] then [rec[0]] + Merge(rec[1..], fields[1..])
    else Merge(rec[1..], fields)
  }

  /** The filtered decode of an encoded record is the merge; once every name is matched, the bytes after it are never read. */
  lemma DecodeFilteredEncoded(rec: Record, fields: seq<Bytes>, tail: Bytes)
    requires WellSized(rec)
    requires tail == [] || |Merge(rec, fields)| == |fields|
    ensures DecodeFiltered(Encode(rec) + tail, fields) == Success(Merge(rec, fields))
  {
    var m := Merge(rec, fields);
    DecodeFilteredEncodedPrefix(rec, fields, tail);
    assert DecodeFiltered(tail, fields[|m|..]) == Success([]) by {
      if tail != [] {
        assert fields[|m|..] == [];
      }
    }
    assert m + [] == m;
  }

  /**
    The filtered decode of an encoded record followed by any bytes: the merge
    of the record, then the filtered decode of the bytes after it against the
    names still unmatched.
  */
  lemma {:induction false} DecodeFilteredEncodedPrefix(rec: Record, fields: seq<Bytes>, tail: Bytes)
    requires WellSized(rec)
    ensures DecodeFiltered(Encode(rec) + tail, fields) ==
      Prefixed(Merge(rec, fields), DecodeFiltered(tail, fields[|Merge(rec, fields)|..]))
  {
    var data := Encode(rec) + tail;
    if fields == [] {
      assert fields[|Merge(rec, fields)|..] == [];
      var empty: Record := [];
      assert empty + empty == empty;
    } else if rec == [] {
      assert data == tail;
      var r := DecodeFiltered(tail, fields);
      if r.Success? {
        assert [] + r.value == r.value;
      }
    } else {
      var f := rec[0];
      assert data == EncodeField(f) + (Encode(rec[1..]) + tail);
      ParseEncodedField(f, Encode(rec[1..]) + tail);
      var n := |EncodeField(f)|;
      assert data[n..] == Encode(rec[1..]) + tail;
      if f.name == fields[0] {
        DecodeFilteredEncodedPrefix(rec[1..], fields[1..], tail);
        var m := Merge(rec[1..], fields[1..]);
        assert fields[1..][|m|..] == fields[|m| + 1..];
        PrefixedTwice([f], m, DecodeFiltered(tail, fields[|m| + 1..]));
      } else {
        DecodeFilteredEncodedPrefix(rec[1..], fields, tail);
      }
    }
  }

  /**
    A buffer that stops inside a pair while some requested name is still
    unmatched is rejected by the filtered decode as well.
  */
  lemma FilteredTruncatedRowRejected(rec: Record, f: Field, n: nat, fields: seq<Bytes>)
    requires WellSized(rec) && FieldFits(f) && 0 < n < |EncodeField(f)|
    requires |Merge(rec, fields)| < |fields|
    ensures DecodeFiltered(Encode(rec) + EncodeField(f)[..n], fields).Failure?
  {
    var t := EncodeField(f)[..n];
    DecodeFilteredEncodedPrefix(rec, fields, t);
    PartialFieldUnparsed(f, n);
  }

  lemma EncodeConsTail(data: Bytes, g: Field, n: nat, rec: Record, tail: Bytes)
    requires FieldFits(g) && n <= |data| && data[..n] == EncodeField(g)
    requires WellSized(rec) && data[n..] == Encode(rec) + tail
    ensures WellSized([g] + rec) && data == Encode([g] + rec) + tail
  {
    EncodeCons(g, rec);
    assert data == data[..n] + data[n..];
  }

  lemma MergeCons(g: Field, rec: Record, fields: seq<Bytes>)
    requires fields != []
    ensures Merge([g] + rec, fields) ==
      if g.name == fields[0] then [g] + Merge(rec, fields[1..]) else Merge(rec, fields)
  {
    assert ([g] + rec)[0] == g && ([g] + rec)[1..] == rec;
  }

  /**
    Every successful filtered decode comes from a well-formed prefix of the
    buffer: it is the merge of the pairs stored there, and the bytes after
    that prefix are left unread only once every requested name is matched.
  */
  lemma {:induction false} DecodeFilteredSound(data: Bytes, fields: seq<Bytes>)
    requires DecodeFiltered(data, fields).Success?
    ensures exists rec: Record, tail: Bytes ::
      WellSized(rec) && data == Encode(rec) + tail &&
      DecodeFiltered(data, fields).value == Merge(rec, fields) &&
      (tail == [] || |Merge(rec, fields)| == |fields|)
    decreases |data|
  {
    if data == [] || fields == [] {
      assert data == Encode([]) + data;
    } else {
      var step := ParseField(data).value;
      var g, n := step.0, step.1;
      var rest := if g.name == fields[0] then fields[1..] else fields;
      assert DecodeFiltered(data, fields) == if g.name == fields[0]
        then Prefixed([g], DecodeFiltered(data[n..], rest)) else DecodeFiltered(data[n..], rest);
      DecodeFilteredSound(data[n..], rest);
      var rec, tail :| WellSized(rec) && data[n..] == Encode(rec) + tail &&
        DecodeFiltered(data[n..], rest).value == Merge(rec, rest) &&
        (tail == [] || |Merge(rec, rest)| == |rest|);
      EncodeConsTail(data, g, n, rec, tail);
      MergeCons(g, rec, fields);
      assert DecodeFiltered(data, fields).value == Merge([g] + rec, fields);
    }
  }

  /** Every pair the merge keeps is a stored pair, in storage order. */
  lemma {:induction false} MergeIsSubsequence(rec: Record, fields: seq<Bytes>)
    ensures Subsequence(Merge(rec, fields), rec)
  {
    if rec == [] || fields == [] {
    } else if rec[0].name == fields[0] {
      MergeIsSubsequence(rec[1..], fields[1..]);
      var m := Merge(rec, fields);
      assert m[0] == rec[0] && m[1..] == Merge(rec[1..], fields[1..]);
    } else {
      MergeIsSubsequence(rec[1..], fields);
      var m := Merge(rec, fields);
      if m != [] {
        assert Subsequence(m, rec[1..]);
      }
    }
  }

  lemma {:induction false} SubsequenceDropFirst<T>(a: seq<T>, b: seq<T>)
    requires a != [] && Subsequence(a, b)
    ensures Subsequence(a[1..], b)
    decreases |b|
  {
    if a[1..] == [] {
    } else if a[0] == b[0] && Subsequence(a[1..], b[1..]) {
      assert Subsequence(a[1..], b) by {
        assert Subsequence(a[1..], b[1..]);
      }
    } else {
      SubsequenceDropFirst(a, b[1..]);
    }
  }

  /**
    The filtered decode matches every requested name exactly when the
    requested names occur, in the requested order, among the stored names.
  */
  lemma {:induction false} MergeCompleteIffSubsequence(rec: Record, fields: seq<Bytes>)
    ensures |Merge(rec, fields)| == |fields| <==> Subsequence(fields, Names(rec))
    decreases |rec|
  {
    if rec == [] || fields == [] {
    } else {
      var names := Names(rec);
      assert names[0] == rec[0].name && names[1..] == Names(rec[1..]);
      if rec[0].name == fields[0] {
        MergeCompleteIffSubsequence(rec[1..], fields[1..]);
        if Subsequence(fields, names[1..]) {
          SubsequenceDropFirst(fields, names[1..]);
        }
      } else {
        MergeCompleteIffSubsequence(rec[1..], fields);
      }
    }
  }

  /** Asking for two stored names in the other order matches only the first request. */
  lemma ReorderedRequestIsIncomplete(a: Bytes, x: Bytes, b: Bytes, y: Bytes)
    requires a != b
    requires FieldFits(Field(a, x)) && FieldFits(Field(b, y))
    ensures DecodeFiltered(Encode([Field(a, x), Field(b, y)]), [b, a]) == Success([Field(b, y)])
    ensures DecodeRowFiltered([], Encode([Field(a, x), Field(b, y)]), [b, a]) == Failure(IncompleteRecord)
  {
    var rec := [Field(a, x), Field(b, y)];
    var fields := [b, a];
    assert WellSized(rec);
    DecodeFilteredEncoded(rec, fields, []);
    assert Encode(rec) + [] == Encode(rec);
    assert rec[1..][1..] == [];
    assert Merge(rec[1..], fields) == [rec[1]] + Merge([], fields[1..]);
    assert Merge(rec, fields) == Merge(rec[1..], fields);
    assert Merge(rec, fields) == [Field(b, y)];
    assert DecodeFiltered(Encode(rec), fields) == Success([Field(b, y)]);
  }

  /* ---------- what the deserializers hand back ---------- */

  /**
    DeserializeRow: the decoded pairs appended after the caller's existing
    contents, accepted only when the final count is the expected field count.
  */
  function DecodeRow(values: Record, data: Bytes, fieldcount: int): (r: Result<Record, DecodeError>)
    ensures r.Success? ==>
      |r.value| == fieldcount && |values| <= |r.value| && r.value[..|values|] == values &&
      WellSized(r.value[|values|..]) && Encode(r.value[|values|..]) == data
  {
    match Decode(data)
    case Failure(e) => Failure(e)
    case Success(rec) =>
      if |values| + |rec| == fieldcount then Success(values + rec) else Failure(FieldCountMismatch)
  }

  /**
    DeserializeRowFilter: the matched pairs appended after the caller's
    existing contents, accepted only when the final count is the number of
    requested names.
  */
  function DecodeRowFiltered(values: Record, data: Bytes, fields: seq<Bytes>): (r: Result<Record, DecodeError>)
    ensures r.Success? ==>
      |r.value| == |fields| && |values| <= |fields| && r.value[..|values|] == values &&
      Names(r.value[|values|..]) == fields[..|fields| - |values|]
  {
    match DecodeFiltered(data, fields)
    case Failure(e) => Failure(e)
    case Success(rec) =>
      if |values| + |rec| == |fields| then
        assert (values + rec)[|values|..] == rec;
        Success(values + rec)
      else Failure(IncompleteRecord)
  }

  lemma DecodeRowOfEncoding(values: Record, rec: Record)
    requires WellSized(rec)
    ensures DecodeRow(values, Encode(rec), |values| + |rec|) == Success(values + rec)
  {
    DecodeEncode(rec);
  }

  lemma DecodeRowFilteredOfEncoding(rec: Record, fields: seq<Bytes>)
    requires WellSized(rec)
    ensures DecodeRowFiltered([], Encode(rec), fields) ==
      if Subsequence(fields, Names(rec)) then Success(Merge(rec, fields)) else Failure(IncompleteRecord)
  {
    DecodeFilteredEncoded(rec, fields, []);
    assert Encode(rec) + [] == Encode(rec);
    MergeCompleteIffSubsequence(rec, fields);
    assert [] + Merge(rec, fields) == Merge(rec, fields);
  }

  /* ---------- the cursor-based implementations ---------- */

  lemma SerializeStep(data: Bytes, values: Record, i: nat)
    requires i < |values|
    ensures data + Encode(values[..i + 1]) == data + Encode(values[..i]) + EncodeField(values[i])
  {
    assert values[..i + 1] == values[..i] + [values[i]];
    EncodeAppend(values[..i], [values[i]]);
    assert Encode([values[i]]) == EncodeField(values[i]);
  }

  /** SerializeRow: appends the encoding of every pair, in order, to `data`. */
  method SerializeRow(values: Record, data: Bytes) returns (out: Bytes)
    ensures out == data + Encode(values)
    ensures |out| == |data| + EncodedSize(values) && out[..|data|] == data
  {
    out := data;
    for i := 0 to |values|
      invariant out == data + Encode(values[..i])
    {
      var field := values[i];
      ghost var before := out;
      out := out + EncodeU32(|field.name| % U32_LIMIT);
      out := out + field.name;
      out := out + EncodeU32(|field.value| % U32_LIMIT);
      out := out + field.value;
      assert out == before + EncodeField(field);
      SerializeStep(data, values, i);
    }
    assert values[..|values|] == values;
  }

  /** Reads the pair that starts at cursor `p`, checking each read against the end of `data`. */
  method ReadField(data: Bytes, p: nat) returns (r: Result<(Field, nat), DecodeError>)
    requires p <= |data|
    ensures r == ParseField(data[p..])
  {
    var q := p;
    if |data| - q < 4 {
      return Failure(Truncated);
    }
    var len := DecodeU32(data[q..q + 4]);
    q := q + 4;
    if |data| - q < len {
      return Failure(Truncated);
    }
    var name := data[q..q + len];
    q := q + len;
    if |data| - q < 4 {
      return Failure(Truncated);
    }
    var nameLen := len;
    len := DecodeU32(data[q..q + 4]);
    q := q + 4;
    if |data| - q < len {
      return Failure(Truncated);
    }
    var value := data[q..q + len];
    q := q + len;
    var d := data[p..];
    assert d[..4] == data[p..p + 4];
    assert d[4..4 + nameLen] == name;
    assert d[4 + nameLen..8 + nameLen] == data[p + 4 + nameLen..p + 8 + nameLen];
    assert d[8 + nameLen..8 + nameLen + len] == value;
    return Success((Field(name, value), q - p));
  }

  /** DeserializeRow: decodes the whole buffer, appending to `values`. */
  method DeserializeRow(values: Record, data: Bytes, fieldcount: int) returns (r: Result<Record, DecodeError>)
    ensures r == DecodeRow(values, data, fieldcount)
  {
    var acc := values;
    var p: nat := 0;
    assert data[p..] == data;
    while p != |data|
      invariant p <= |data|
      invariant Prefixed(acc, Decode(data[p..])) == Prefixed(values, Decode(data))
      decreases |data| - p
    {
      var step := ReadField(data, p);
      if step.Failure? {
        return Failure(step.error);
      }
      var (field, n) := step.value;
      var acc0, p0 := acc, p;
      acc, p := acc + [field], p + n;
      DecodeRowStep(acc0, data, p0, field, n, p);
    }
    assert acc + [] == acc;
    if |acc| != fieldcount {
      return Failure(FieldCountMismatch);
    }
    return Success(acc);
  }

  /** DeserializeRowFilter: keeps the pairs that match `fields` in order, appending to `values`. */
  method DeserializeRowFilter(values: Record, data: Bytes, fields: seq<Bytes>) returns (r: Result<Record, DecodeError>)
    ensures r == DecodeRowFiltered(values, data, fields)
  {
    var acc := values;
    var p: nat := 0;
    var k: nat := 0;
    assert data[p..] == data && fields[k..] == fields;
    while p != |data| && k != |fields|
      invariant p <= |data| && k <= |fields|
      invariant Prefixed(acc, DecodeFiltered(data[p..], fields[k..])) == Prefixed(values, DecodeFiltered(data, fields))
      invariant |acc| == |values| + k
      decreases |data| - p
    {
      var step := ReadField(data, p);
      if step.Failure? {
        DecodeFilteredFails(acc, data, p, fields, k);
        return Failure(step.error);
      }
      var (field, n) := step.value;
      var acc0, p0, k0 := acc, p, k;
      if fields[k] == field.name {
        acc, k := acc + [field], k + 1;
      }
      p := p + n;
      DecodeFilteredStep(acc0, data, p0, fields, k0, field, n, acc, p, k);
    }
    assert DecodeFiltered(data[p..], fields[k..]) == Success([]);
    assert acc + [] == acc;
    if |acc| != |fields| {
      return Failure(IncompleteRecord);
    }
    return Success(acc);
  }
}
