/**
  The CacheLib adapter of the benchmark (cachelib/cachelib_db.h:21-94,
  cachelib/cachelib_db.cc:65-306).

  The engine is the process-wide `cache_`, modelled as a GlobalCache object
  that every CachelibDB instance shares. Its contents are a map from key to
  the row bytes SerializeRow produced. The five public operations forward
  through member-function slots that Init binds; calling one before Init
  follows an uninitialised member pointer, so the public operations require the slot
  to be bound.

  What the engine decides on its own is a parameter: whether an allocation
  succeeds. Exceptions are the `Thrown` outcome and a failed decode (a read
  past the end of the row or a failed count assert) is `Aborted`.
*/
module CachelibDb {
  import opened Wrappers
  import opened RowCodec
  import opened TierConfig

  /** The DB::Status values the adapter returns. */
  datatype Status = Ok | NotFound

  /** How a call ends: a status and a result, a utils::Exception, or an aborted decode. */
  datatype Outcome<T> =
    | Returned(status: Status, value: T)
    | Thrown(message: string)
    | Aborted(error: DecodeError)

  const PUT_FAILED := "Cachelib Put failed "
  const DELETE_FAILED := "Cachelib Delete failed"
  const SCAN_NOT_IMPLEMENTED := "Cachelib Scan not implemented"

  /** The engine's items: key to stored row bytes. */
  type Items = map<Bytes, Bytes>

  /* ---------- the operations on the engine's items ---------- */

  /**
    find: a missing key is NotFound and leaves `result` alone; a present
    key's row is decoded and appended to `result`, filtered by `fields` when
    the caller names fields, checked against `fieldcount` when it does not.
  */
  function FindSpec(items: Items, key: Bytes, fields: Option<seq<Bytes>>, result: Record, fieldcount: int): (o: Outcome<Record>)
    ensures o == Returned(NotFound, result) <==> key !in items
    ensures !o.Thrown?
    ensures o.Returned? && key in items ==>
      o.status == Ok && |result| <= |o.value| && o.value[..|result|] == result
  {
    if key !in items then Returned(NotFound, result)
    else
      var decoded :=
        if fields.Some? then DecodeRowFiltered(result, items[key], fields.value)
        else DecodeRow(result, items[key], fieldcount);
      match decoded
      case Success(r) => Returned(Ok, r)
      case Failure(e) => Aborted(e)
  }

  /** The outcome of a write or delete together with the items after it. */
  datatype Change = Change(outcome: Outcome<()>, items: Items)

  /**
    insertOrReplace: when the engine allocates the item the key maps to the
    row's encoding, replacing any earlier row; otherwise the put fails and
    nothing changes.
  */
  function UpsertSpec(items: Items, key: Bytes, values: Record, allocates: bool): (c: Change)
    ensures c.outcome.Returned? <==> allocates
    ensures c.items.Keys == if allocates then items.Keys + {key} else items.Keys
    ensures allocates ==> c.items[key] == Encode(values)
    ensures forall k :: k in items && k != key ==> c.items[k] == items[k]
  {
    if !allocates then Change(Thrown(PUT_FAILED), items)
    else Change(Returned(Ok, ()), items[key := Encode(values)])
  }

  /** remove: the key is gone afterwards; removing a key that is not there throws. */
  function RemoveSpec(items: Items, key: Bytes): (c: Change)
    ensures c.outcome.Returned? <==> key in items
    ensures c.items.Keys == items.Keys - {key}
    ensures forall k :: k in c.items ==> c.items[k] == items[k]
  {
    if key in items then Change(Returned(Ok, ()), items - {key})
    else Change(Thrown(DELETE_FAILED), items)
  }

  /* ---------- properties of the operations ---------- */

  /** A row written by a successful put reads back as written, after whatever the caller's vector held. */
  lemma ReadYourWrite(items: Items, key: Bytes, values: Record, result: Record)
    requires WellSized(values)
    ensures var after := UpsertSpec(items, key, values, true).items;
      FindSpec(after, key, None, result, |result| + |values|) == Returned(Ok, result + values)
  {
    DecodeRowOfEncoding(result, values);
  }

  /**
    An unfiltered read into an empty vector returns exactly the row that was
    put if and only if every name and value is shorter than 2^32 bytes: a
    longer one has its stored length cut to 32 bits and does not come back.
  */
  lemma ReadYourWriteIffWellSized(items: Items, key: Bytes, values: Record)
    ensures var after := UpsertSpec(items, key, values, true).items;
      FindSpec(after, key, None, [], |values|) == Returned(Ok, values) <==> WellSized(values)
  {
    var after := UpsertSpec(items, key, values, true).items;
    if WellSized(values) {
      ReadYourWrite(items, key, values, []);
      assert [] + values == values;
    } else if FindSpec(after, key, None, [], |values|) == Returned(Ok, values) {
      assert false;
    }
  }

  /** A full read checks the count: a row with a different number of pairs aborts. */
  lemma ReadChecksFieldCount(items: Items, key: Bytes, values: Record, fieldcount: int)
    requires WellSized(values) && fieldcount != |values|
    ensures var after := UpsertSpec(items, key, values, true).items;
      FindSpec(after, key, None, [], fieldcount) == Aborted(FieldCountMismatch)
  {
    DecodeEncode(values);
  }

  /**
    A filtered read of a row just written returns the greedy in-order match
    of the requested names, and aborts unless the names occur in the row in
    the requested order.
  */
  lemma FilteredReadOfWrite(items: Items, key: Bytes, values: Record, fields: seq<Bytes>, fieldcount: int)
    requires WellSized(values)
    ensures var after := UpsertSpec(items, key, values, true).items;
      FindSpec(after, key, Some(fields), [], fieldcount) ==
        if Subsequence(fields, Names(values)) then Returned(Ok, Merge(values, fields))
        else Aborted(IncompleteRecord)
  {
    DecodeRowFilteredOfEncoding(values, fields);
  }

  /** A failed allocation throws and leaves the items as they were. */
  lemma FailedPutChangesNothing(items: Items, key: Bytes, values: Record)
    ensures UpsertSpec(items, key, values, false) == Change(Thrown(PUT_FAILED), items)
  {
  }

  /** Writes and deletes touch only their own key. */
  lemma OtherKeysUnchanged(items: Items, key: Bytes, other: Bytes, values: Record, allocates: bool,
                           fields: Option<seq<Bytes>>, result: Record, fieldcount: int)
    requires other != key
    ensures FindSpec(UpsertSpec(items, key, values, allocates).items, other, fields, result, fieldcount) ==
      FindSpec(items, other, fields, result, fieldcount)
    ensures FindSpec(RemoveSpec(items, key).items, other, fields, result, fieldcount) ==
      FindSpec(items, other, fields, result, fieldcount)
  {
  }

  /** After a delete the key reads as NotFound, and the delete succeeded exactly when the key was there. */
  lemma DeleteThenRead(items: Items, key: Bytes, fields: Option<seq<Bytes>>, result: Record, fieldcount: int)
    ensures FindSpec(RemoveSpec(items, key).items, key, fields, result, fieldcount) == Returned(NotFound, result)
    ensures RemoveSpec(items, key).outcome.Returned? <==> key in items
  {
  }

  /** Deleting the same key twice throws on the second delete. */
  lemma DeleteTwiceThrows(items: Items, key: Bytes)
    ensures RemoveSpec(RemoveSpec(items, key).items, key).outcome == Thrown(DELETE_FAILED)
  {
  }

  /** A put followed by a delete of the same key leaves no trace of the key. */
  lemma PutThenDelete(items: Items, key: Bytes, values: Record)
    ensures var put := UpsertSpec(items, key, values, true);
      var del := RemoveSpec(put.items, key);
      del.outcome == Returned(Ok, ()) && del.items == items - {key}
  {
    var put := UpsertSpec(items, key, values, true);
    assert put.items - {key} == items - {key};
  }

  /* ---------- the engine and the adapter ---------- */

  /** The process-wide engine: null until some instance's Init creates it. */
  class GlobalCache {
    var config: Option<CacheConfig>
    var items: Items

    constructor()
      ensures config == None && items == map[]
    {
      config := None;
      items := map[];
    }
  }

  /** The member function each slot can point at; each slot has exactly one candidate. */
  datatype ReadMember = FindMember
  datatype ScanMember = ScanMember
  datatype WriteMember = InsertOrReplaceMember
  datatype DeleteMember = RemoveMember

  class CachelibDB {
    const cache: GlobalCache
    var fieldcount: int
    var methodRead: Option<ReadMember>
    var methodScan: Option<ScanMember>
    var methodUpdate: Option<WriteMember>
    var methodInsert: Option<WriteMember>
    var methodDelete: Option<DeleteMember>

    /** Every slot points at its member function, as Init leaves them. */
    predicate Bound()
      reads this
    {
      methodRead.Some? && methodScan.Some? && methodUpdate.Some? && methodInsert.Some? && methodDelete.Some?
    }

    constructor(cache: GlobalCache, fieldcount: int)
      ensures this.cache == cache && this.fieldcount == fieldcount
      ensures methodRead == None && methodScan == None && methodUpdate == None
      ensures methodInsert == None && methodDelete == None
    {
      this.cache := cache;
      this.fieldcount := fieldcount;
      methodRead, methodScan, methodUpdate, methodInsert, methodDelete := None, None, None, None, None;
    }

    /**
      Init: builds the configuration, replaces the process-wide engine by a
      new, empty one and binds the slots. A property std::stoi rejects throws
      before anything is changed.
    */
    method Init(props: Properties) returns (r: Result<(), StoiError>)
      modifies this, cache
      ensures r.Success? <==> BuildConfig(props).Success?
      ensures r.Failure? ==> r.error == BuildConfig(props).error && unchanged(this, cache)
      ensures r.Success? ==>
        && cache.config == Some(BuildConfig(props).value)
        && cache.items == map[]
        && Bound()
        && fieldcount == old(fieldcount)
    {
      var config := BuildConfig(props);
      if config.Failure? {
        return Failure(config.error);
      }
      Install(config.value);
      return Success(());
    }

    /** The part of Init after the configuration is built: a new, empty engine and bound slots. */
    method Install(config: CacheConfig)
      modifies this, cache
      ensures cache.config == Some(config) && cache.items == map[]
      ensures Bound() && fieldcount == old(fieldcount)
    {
      cache.config := Some(config);
      cache.items := map[];
      methodRead := Some(FindMember);
      methodScan := Some(ScanMember);
      methodUpdate := Some(InsertOrReplaceMember);
      methodInsert := Some(InsertOrReplaceMember);
      methodDelete := Some(RemoveMember);
    }

    /** Cleanup does nothing. */
    method Cleanup()
    {
    }

    /** find: looks the key up and decodes its row into `result`. */
    method Find(table: string, key: Bytes, fields: Option<seq<Bytes>>, result: Record) returns (o: Outcome<Record>)
      ensures o == FindSpec(cache.items, key, fields, result, fieldcount)
    {
      if key !in cache.items {
        return Returned(NotFound, result);
      }
      var data := cache.items[key];
      var decoded;
      if fields.Some? {
        decoded := DeserializeRowFilter(result, data, fields.value);
      } else {
        decoded := DeserializeRow(result, data, fieldcount);
      }
      if decoded.Failure? {
        return Aborted(decoded.error);
      }
      return Returned(Ok, decoded.value);
    }

    /** insertOrReplace: serializes the row, allocates the item and stores it under the key. */
    method InsertOrReplace(table: string, key: Bytes, values: Record, allocates: bool) returns (o: Outcome<()>)
      modifies cache
      ensures Change(o, cache.items) == UpsertSpec(old(cache.items), key, values, allocates)
      ensures cache.config == old(cache.config)
    {
      var data := SerializeRow(values, []);
      if !allocates {
        return Thrown(PUT_FAILED);
      }
      cache.items := cache.items[key := data];
      return Returned(Ok, ());
    }

    /** remove: removes the key; an absent key throws. */
    method Remove(table: string, key: Bytes) returns (o: Outcome<()>)
      modifies cache
      ensures Change(o, cache.items) == RemoveSpec(old(cache.items), key)
      ensures cache.config == old(cache.config)
    {
      var found := key in cache.items;
      cache.items := cache.items - {key};
      if !found {
        return Thrown(DELETE_FAILED);
      }
      return Returned(Ok, ());
    }

    /** scan: not supported by this adapter. */
    method ScanRange(table: string, key: Bytes, len: int, fields: Option<seq<Bytes>>) returns (o: Outcome<seq<Record>>)
      ensures o == Thrown(SCAN_NOT_IMPLEMENTED)
    {
      return Thrown(SCAN_NOT_IMPLEMENTED);
    }

    /* ---------- the public operations, through the slots ---------- */

    method Read(table: string, key: Bytes, fields: Option<seq<Bytes>>, result: Record) returns (o: Outcome<Record>)
      requires methodRead.Some?
      ensures o == FindSpec(cache.items, key, fields, result, fieldcount)
    {
      match methodRead.value
      case FindMember => o := Find(table, key, fields, result);
    }

    method Scan(table: string, key: Bytes, len: int, fields: Option<seq<Bytes>>) returns (o: Outcome<seq<Record>>)
      requires methodScan.Some?
      ensures o == Thrown(SCAN_NOT_IMPLEMENTED)
    {
      match methodScan.value
      case ScanMember => o := ScanRange(table, key, len, fields);
    }

    method Update(table: string, key: Bytes, values: Record, allocates: bool) returns (o: Outcome<()>)
      requires methodUpdate.Some?
      modifies cache
      ensures Change(o, cache.items) == UpsertSpec(old(cache.items), key, values, allocates)
      ensures cache.config == old(cache.config)
    {
      match methodUpdate.value
      case InsertOrReplaceMember => o := InsertOrReplace(table, key, values, allocates);
    }

    method Insert(table: string, key: Bytes, values: Record, allocates: bool) returns (o: Outcome<()>)
      requires methodInsert.Some?
      modifies cache
      ensures Change(o, cache.items) == UpsertSpec(old(cache.items), key, values, allocates)
      ensures cache.config == old(cache.config)
    {
      match methodInsert.value
      case InsertOrReplaceMember => o := InsertOrReplace(table, key, values, allocates);
    }

    method Delete(table: string, key: Bytes) returns (o: Outcome<()>)
      requires methodDelete.Some?
      modifies cache
      ensures Change(o, cache.items) == RemoveSpec(old(cache.items), key)
      ensures cache.config == old(cache.config)
    {
      match methodDelete.value
      case RemoveMember => o := Remove(table, key);
    }
  }

  /**
    Two instances share one engine: a second instance's Init replaces the
    engine, so a row the first instance wrote is gone.
  */
  method SecondInitDropsRows(props: Properties, key: Bytes, values: Record) returns (o: Outcome<Record>)
    requires forall k :: k in ADAPTER_PROPS ==> k !in props
    ensures o == Returned(NotFound, [])
  {
    DefaultConfig(props);
    var cache := new GlobalCache();
    var first := new CachelibDB(cache, |values|);
    var second := new CachelibDB(cache, |values|);
    var r1 := first.Init(props);
    var w := first.Insert("usertable", key, values, true);
    var r2 := second.Init(props);
    o := first.Read("usertable", key, None, []);
  }
}
