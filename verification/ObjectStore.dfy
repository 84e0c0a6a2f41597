/** The operations of the object store as they run (src/object_store.cpp). */
module ObjectStores {
  import opened Options
  import opened LsmStore
  import opened KvLoads
  import opened ObjectKeys
  import opened ObjectModel
  import opened ObjectSafety
  import opened ObjectFields

  datatype PutResult =
    | EmptyBucket
    | EmptyKey
    | NoSuchBucket
    | FlushFailed
    | Stored(objectId: string, size: nat, chunkCount: nat, etag: string)

  datatype DeleteResult = NotThere | Unreadable | NotFlushed | Done

  // ---- what the writes weigh ----

  /** What an entry adds to the memtable; a tombstone has no value. */
  function EntrySize(k: string, v: Option<string>, vb: nat): nat {
    |k| + (if v.Some? then |v.value| else 0) + TIMESTAMP_BYTES + vb
  }

  /** That is what the key-value store's put and delete add. */
  lemma EntryLoads(s: LsmStore.Store, key: string, value: Option<string>)
    requires s.phase == Ready && (value == None ==> key in s.latest)
    ensures LoadOf(if value.Some? then DoPut(s, key, value.value, true) else DoDel(s, key, true))
         == AfterEntry(LoadOf(s), EntrySize(key, value, s.versionBytes))
  {
    if value.Some? { PutLoads(s, key, value.value); } else { DelLoads(s, key); }
  }

  function ChunkSizes(sc: Schema, id: string, data: string, cs: nat, vb: nat, n: nat): (sizes: seq<nat>)
    ensures |sizes| == n
  {
    if n == 0 then []
    else ChunkSizes(sc, id, data, cs, vb, n - 1) + [EntrySize(sc.chunkKey(id, n - 1), Some(Piece(data, cs, n - 1)), vb)]
  }

  function PutSizes(sc: Schema, req: Request, st: Stamp, cs: nat, vb: nat): seq<nat>
    requires cs > 0
  {
    ChunkSizes(sc, st.id, req.data, cs, vb, Count(req.data, cs))
    + [EntrySize(sc.metaKey(req.bucket, req.key), Some(sc.write(NewMeta(req, st, cs))), vb)]
    + [EntrySize(sc.indexKey(req.bucket, req.key), Some(st.id), vb)]
  }

  /** Deleting an index entry that is not there writes no tombstone. */
  function DeleteSizes(sc: Schema, kv: KV, bucket: string, key: string, now: nat, vb: nat): seq<nat> {
    match MetaAt(sc, kv, bucket, key)
    case None => []
    case Some(m) =>
      [EntrySize(sc.metaKey(bucket, key), Some(sc.write(m.(state := DELETED, updated := now))), vb)]
      + if sc.indexKey(bucket, key) in kv[sc.metaKey(bucket, key) := ""] then [EntrySize(sc.indexKey(bucket, key), None, vb)] else []
  }

  function TombstoneSizes(keys: seq<string>, vb: nat): (sizes: seq<nat>)
    ensures |sizes| == |keys|
  {
    if keys == [] then [] else TombstoneSizes(keys[..|keys| - 1], vb) + [EntrySize(keys[|keys| - 1], None, vb)]
  }

  lemma LoadMore(l: Load, sizes: seq<nat>, size: nat)
    ensures LoadAfter(l, sizes + [size]) == AfterEntry(LoadAfter(l, sizes), size)
  {
    assert (sizes + [size])[..|sizes|] == sizes;
  }

  // ---- the loops ----

  method CutPiece(data: string, cs: nat, i: nat) returns (piece: string)
    ensures piece == Piece(data, cs, i)
  {
    var start := if i * cs < |data| then i * cs else |data|;
    var end := if start + cs < |data| then start + cs else |data|;
    piece := data[start..end];
  }

  method WriteChunk(sc: Schema, kv: KV, id: string, data: string, cs: nat, i: nat, load: Load, vb: nat) returns (kv': KV, load': Load)
    ensures kv' == kv[sc.chunkKey(id, i) := Piece(data, cs, i)]
    ensures load' == AfterEntry(load, EntrySize(sc.chunkKey(id, i), Some(Piece(data, cs, i)), vb))
  {
    var piece := CutPiece(data, cs, i);
    kv' := kv[sc.chunkKey(id, i) := piece];
    load' := AfterEntry(load, EntrySize(sc.chunkKey(id, i), Some(piece), vb));
  }

  method WriteChunks(sc: Schema, kv: KV, id: string, data: string, cs: nat, count: nat, load: Load, vb: nat) returns (kv': KV, load': Load)
    ensures kv' == WithChunks(sc, kv, id, data, cs, count)
    ensures load' == LoadAfter(load, ChunkSizes(sc, id, data, cs, vb, count))
  {
    kv', load' := kv, load;
    for i := 0 to count
      invariant kv' == WithChunks(sc, kv, id, data, cs, i)
      invariant load' == LoadAfter(load, ChunkSizes(sc, id, data, cs, vb, i))
    {
      LoadMore(load, ChunkSizes(sc, id, data, cs, vb, i), EntrySize(sc.chunkKey(id, i), Some(Piece(data, cs, i)), vb));
      kv', load' := WriteChunk(sc, kv', id, data, cs, i, load', vb);
    }
  }

  /** Chunks first, then metadata, then the index entry. */
  method WriteObject(sc: Schema, kv: KV, req: Request, st: Stamp, cs: nat, load: Load, vb: nat) returns (kv': KV, count: nat, load': Load)
    requires cs > 0
    ensures count == Count(req.data, cs) && kv' == AfterPut(sc, kv, req, st, cs, count + 2)
    ensures load' == LoadAfter(load, PutSizes(sc, req, st, cs, vb))
  {
    count := ((|req.data| + cs - 1) / cs) % WIDTH32;
    kv', load' := WriteChunks(sc, kv, st.id, req.data, cs, count, load, vb);
    var meta := Metadata(st.id, req.bucket, req.key, |req.data|, count, cs, req.contentType, st.etag, st.now, st.now, COMMITTED);
    assert meta == NewMeta(req, st, cs);
    kv' := kv'[sc.metaKey(req.bucket, req.key) := sc.write(meta)];
    kv' := kv'[sc.indexKey(req.bucket, req.key) := st.id];
    ghost var chunks := ChunkSizes(sc, st.id, req.data, cs, vb, count);
    var m, i := EntrySize(sc.metaKey(req.bucket, req.key), Some(sc.write(meta)), vb), EntrySize(sc.indexKey(req.bucket, req.key), Some(st.id), vb);
    LoadMore(load, chunks, m);
    LoadMore(load, chunks + [m], i);
    load' := AfterEntry(AfterEntry(load', m), i);
  }

  method MarkDeleted(sc: Schema, kv: KV, bucket: string, key: string, now: nat, load: Load, vb: nat) returns (kv': KV, load': Load)
    ensures kv' == AfterDelete(sc, kv, bucket, key, now, 2)
    ensures load' == LoadAfter(load, DeleteSizes(sc, kv, bucket, key, now, vb))
  {
    kv', load' := kv, load;
    if sc.metaKey(bucket, key) !in kv {
      return;
    }
    var meta := sc.read(kv[sc.metaKey(bucket, key)]);
    if meta == None {
      return;
    }
    var text := sc.write(meta.value.(state := DELETED, updated := now));
    kv' := kv[sc.metaKey(bucket, key) := text];
    var m, i := EntrySize(sc.metaKey(bucket, key), Some(text), vb), EntrySize(sc.indexKey(bucket, key), None, vb);
    LoadMore(load, [], m);
    load' := AfterEntry(load, m);
    if sc.indexKey(bucket, key) in kv' {
      LoadMore(load, [m], i);
      load' := AfterEntry(load', i);
    }
    kv' := kv' - {sc.indexKey(bucket, key)};
  }

  method ReadObject(sc: Schema, kv: KV, bucket: string, key: string) returns (a: Answer)
    ensures a == GetObject(sc, kv, bucket, key)
  {
    if sc.metaKey(bucket, key) !in kv {
      return NoMetadata;
    }
    var meta := sc.read(kv[sc.metaKey(bucket, key)]);
    if meta == None {
      return BadMetadata;
    }
    if meta.value.state == DELETED {
      return IsDeleted;
    }
    var g := ReadChunks(sc, kv, meta.value.objectId, meta.value.chunkCount);
    a := if g.Data? then Found(meta.value, g.bytes) else MissingChunk(g.index);
  }

  method ReadChunks(sc: Schema, kv: KV, id: string, count: nat) returns (g: Gathered)
    ensures g == Chunks(sc, kv, id, count)
  {
    var data := "";
    for i := 0 to count
      invariant Chunks(sc, kv, id, i) == Data(data)
    {
      if sc.chunkKey(id, i) !in kv {
        MissingStays(sc, kv, id, i + 1, count);
        return Missing(i);
      }
      data := data + kv[sc.chunkKey(id, i)];
    }
    g := Data(data);
  }

  lemma {:induction false} MissingStays(sc: Schema, kv: KV, id: string, n: nat, count: nat)
    requires n <= count && Chunks(sc, kv, id, n).Missing?
    ensures Chunks(sc, kv, id, count) == Chunks(sc, kv, id, n)
  {
    if n < count { MissingStays(sc, kv, id, n, count - 1); }
  }

  // ---- garbage collection ----

  /** The ids of committed metadata. */
  method Mark(sc: Schema, kv: KV) returns (ids: set<string>)
    ensures forall id :: id in ids <==> exists k :: CommittedAs(sc, kv, k, id)
  {
    ids := {};
    var rest := kv.Keys;
    while rest != {}
      invariant rest <= kv.Keys
      invariant forall k, id :: CommittedAs(sc, kv, k, id) && k !in rest ==> id in ids
      invariant forall id :: id in ids ==> exists k :: CommittedAs(sc, kv, k, id)
      decreases |rest|
    {
      if forall q :: q !in rest { assert false; }
      var k :| k in rest;
      if sc.isMeta(k) {
        var meta := sc.read(kv[k]);
        if meta.Some? && meta.value.state == COMMITTED {
          assert CommittedAs(sc, kv, k, meta.value.objectId);
          ids := ids + {meta.value.objectId};
        }
      }
      rest := rest - {k};
    }
  }

  predicate Unmarked(sc: Schema, kv: KV, ids: set<string>, k: string) {
    k in kv && sc.owner(k).Some? && sc.owner(k).value !in ids
  }

  lemma UnmarkedIsGarbage(sc: Schema, kv: KV, ids: set<string>, k: string)
    requires forall id :: id in ids <==> exists k :: CommittedAs(sc, kv, k, id)
    ensures Unmarked(sc, kv, ids, k) <==> IsGarbage(sc, kv, k)
  {
    if sc.owner(k).Some? { ReachableIff(sc, kv, sc.owner(k).value); }
  }

  /** The keys removed so far, in the order of their removal. */
  ghost predicate Lists(order: seq<string>, gone: set<string>) {
    |order| == |gone| && forall k :: k in order <==> k in gone
  }

  lemma ListsMore(order: seq<string>, gone: set<string>, k: string)
    requires Lists(order, gone) && k !in gone
    ensures Lists(order + [k], gone + {k})
  {
  }

  /** One deletion: the key goes, and the call reports what the memtable, the slot and the log make of it. */
  method DeleteKey(kv: KV, k: string, load: Load, vb: nat, logged: bool) returns (kv': KV, load': Load, ok: bool)
    requires k in kv
    ensures kv' == kv - {k} && load' == AfterEntry(load, EntrySize(k, None, vb))
    ensures ok == (Accepted(load, EntrySize(k, None, vb)) && logged)
  {
    var size := EntrySize(k, None, vb);
    kv' := kv - {k};
    load' := load.(bytes := load.bytes + size);
    if load'.bytes >= FLUSH_THRESHOLD {
      if load.slotTaken {
        return kv', load', false;
      }
      load' := Load(0, true);
    }
    ok := logged;
  }

  lemma SizesMore(order: seq<string>, k: string, vb: nat)
    ensures TombstoneSizes(order + [k], vb) == TombstoneSizes(order, vb) + [EntrySize(k, None, vb)]
  {
    assert (order + [k])[..|order|] == order;
  }

  lemma SuccessesMore(l: Load, sizes: seq<nat>, size: nat, log: nat -> bool)
    ensures Successes(l, sizes + [size], log)
         == Successes(l, sizes, log) + if Accepted(LoadAfter(l, sizes), size) && log(|sizes|) then 1 else 0
  {
    assert (sizes + [size])[..|sizes|] == sizes;
  }

  /** What the loop has done after removing `order`. */
  ghost predicate Swept(load: Load, vb: nat, log: nat -> bool, order: seq<string>, load': Load, deleted: nat) {
    var sizes := TombstoneSizes(order, vb);
    load' == LoadAfter(load, sizes) && deleted == Successes(load, sizes, log)
  }

  lemma SweptMore(load: Load, vb: nat, log: nat -> bool, order: seq<string>, load': Load, deleted: nat, k: string)
    requires Swept(load, vb, log, order, load', deleted)
    ensures var size := EntrySize(k, None, vb);
      Swept(load, vb, log, order + [k], AfterEntry(load', size), deleted + if Accepted(load', size) && log(|order|) then 1 else 0)
  {
    var sizes := TombstoneSizes(order, vb);
    SizesMore(order, k, vb);
    LoadMore(load, sizes, EntrySize(k, None, vb));
    SuccessesMore(load, sizes, EntrySize(k, None, vb), log);
  }

  ghost predicate Removed(sc: Schema, kv: KV, ids: set<string>, rest: set<string>, gone: set<string>) {
    forall k :: k in gone <==> k !in rest && Unmarked(sc, kv, ids, k)
  }

  lemma RemovedNext(sc: Schema, kv: KV, ids: set<string>, rest: set<string>, gone: set<string>, k: string)
    requires Removed(sc, kv, ids, rest, gone) && k in rest
    ensures k !in gone
    ensures Removed(sc, kv, ids, rest - {k}, if Unmarked(sc, kv, ids, k) then gone + {k} else gone)
  {
  }

  /** The map, load and count after the keys of `order` have been deleted one by one. */
  ghost predicate Progress(kv: KV, load: Load, vb: nat, log: nat -> bool, kv': KV, load': Load, deleted: nat, gone: set<string>, order: seq<string>) {
    kv' == kv - gone && Lists(order, gone) && Swept(load, vb, log, order, load', deleted)
  }

  method RemoveChunk(ghost kv: KV, ghost load: Load, vb: nat, log: nat -> bool, kv1: KV, load1: Load, deleted: nat, tried: nat, k: string, ghost gone: set<string>, ghost order: seq<string>)
    returns (kv': KV, load': Load, deleted': nat)
    requires Progress(kv, load, vb, log, kv1, load1, deleted, gone, order) && tried == |order| && k in kv1 && k !in gone
    ensures Progress(kv, load, vb, log, kv', load', deleted', gone + {k}, order + [k])
  {
    ListsMore(order, gone, k);
    SweptMore(load, vb, log, order, load1, deleted, k);
    assert (kv - gone) - {k} == kv - (gone + {k});
    var ok;
    kv', load', ok := DeleteKey(kv1, k, load1, vb, log(tried));
    deleted' := if ok then deleted + 1 else deleted;
  }

  /** Every chunk whose owner is not marked is removed; those whose deletion reports success are counted. */
  method Sweep(sc: Schema, kv: KV, ids: set<string>, load: Load, vb: nat, log: nat -> bool)
    returns (kv': KV, deleted: nat, load': Load, ghost gone: set<string>, ghost order: seq<string>)
    ensures forall k :: k in gone <==> Unmarked(sc, kv, ids, k)
    ensures kv' == kv - gone && Lists(order, gone)
    ensures Swept(load, vb, log, order, load', deleted)
  {
    kv', deleted, load', gone, order := kv, 0, load, {}, [];
    var rest, tried := kv.Keys, 0;
    while rest != {}
      invariant rest <= kv.Keys && tried == |order|
      invariant Removed(sc, kv, ids, rest, gone)
      invariant Progress(kv, load, vb, log, kv', load', deleted, gone, order)
      decreases |rest|
    {
      if forall q :: q !in rest { assert false; }
      var k :| k in rest;
      RemovedNext(sc, kv, ids, rest, gone, k);
      rest := rest - {k};
      if Unmarked(sc, kv, ids, k) {
        kv', load', deleted := RemoveChunk(kv, load, vb, log, kv', load', deleted, tried, k, gone, order);
        tried := tried + 1;
        gone, order := gone + {k}, order + [k];
      }
    }
  }

  /** The count is the number of chunks removed exactly when there was room for their tombstones and the log answered. */
  lemma CountIsExactIff(load: Load, vb: nat, log: nat -> bool, order: seq<string>, gone: set<string>, load': Load, deleted: nat)
    requires Lists(order, gone) && Swept(load, vb, log, order, load', deleted)
    ensures deleted <= |gone|
    ensures deleted == |gone| <==> HasRoom(load, TombstoneSizes(order, vb)) && LogAnswers(log, |gone|)
  {
    AllCountedIff(load, TombstoneSizes(order, vb), log);
  }

  /** A full memtable in front of a taken slot: chunks go and the count stays 0. */
  lemma CountCanBeZero(load: Load, vb: nat, log: nat -> bool, order: seq<string>, load': Load, deleted: nat)
    requires Swept(load, vb, log, order, load', deleted) && load.slotTaken && load.bytes >= FLUSH_THRESHOLD
    ensures deleted == 0
  {
    NoneCounted(load, TombstoneSizes(order, vb), log);
  }

  lemma PutIsStored(kv: KV, req: Request, st: Stamp, cs: nat)
    requires cs > 0 && exists ms :: st.id == ObjectId(req.bucket, req.key, ms)
    ensures PlainTexts(req, st.etag, cs) ==>
      StoredAs(
        ObjectModel.GetObject(Encoding(), AfterPut(Encoding(), kv, req, st, cs, Count(req.data, cs) + 2), req.bucket, req.key),
        req, st.id, st.now, st.etag, cs)
  {
    if PlainTexts(req, st.etag, cs) {
      var ms :| st.id == ObjectId(req.bucket, req.key, ms);
      EncodingGood(Encoding());
      IdTabFree(req.bucket, req.key, ms);
      PutStores(Encoding(), kv, req, st, cs, Count(req.data, cs) + 2);
    }
  }

  class ObjectStore {
    var kv: KV
    var load: Load
    const chunkSize: nat
    const versionBytes: nat

    ghost predicate Valid()
      reads this
    {
      chunkSize > 0
    }

    constructor (kv: KV, load: Load, chunkSize: nat, versionBytes: nat)
      ensures Valid() && this.kv == kv && this.load == load && this.versionBytes == versionBytes
      ensures this.chunkSize == if chunkSize == 0 then 4096 else chunkSize
    {
      this.kv, this.load := kv, load;
      this.chunkSize := if chunkSize == 0 then 4096 else chunkSize;
      this.versionBytes := versionBytes;
    }

    /** `ms` and `now` are the two clock readings, `etag` the hash, `flushed` the answer of the log. */
    method PutObject(req: Request, ms: nat, now: nat, etag: string, flushed: bool) returns (r: PutResult)
      requires Valid()
      modifies this
      ensures var st := Stamp(ObjectId(req.bucket, req.key, ms), now, etag); var count := Count(req.data, chunkSize);
        if Refused(Encoding(), old(kv), req) then kv == old(kv) && load == old(load)
        else
          && kv == AfterPut(Encoding(), old(kv), req, st, chunkSize, count + 2)
          && load == LoadAfter(old(load), PutSizes(Encoding(), req, st, chunkSize, versionBytes))
      ensures r ==
        if req.bucket == "" then EmptyBucket
        else if req.key == "" then EmptyKey
        else if BucketMetaKey(req.bucket) !in old(kv) then NoSuchBucket
        else if !flushed then FlushFailed
        else Stored(ObjectId(req.bucket, req.key, ms), |req.data|, Count(req.data, chunkSize), etag)
      ensures !Refused(Encoding(), old(kv), req) && PlainTexts(req, etag, chunkSize) ==>
        StoredAs(ObjectModel.GetObject(Encoding(), kv, req.bucket, req.key), req, ObjectId(req.bucket, req.key, ms), now, etag, chunkSize)
    {
      if req.bucket == "" {
        return EmptyBucket;
      }
      if req.key == "" {
        return EmptyKey;
      }
      if BucketMetaKey(req.bucket) !in kv {
        return NoSuchBucket;
      }
      var st := Stamp(ObjectId(req.bucket, req.key, ms), now, etag);
      var count;
      PutIsStored(kv, req, st, chunkSize);
      kv, count, load := WriteObject(Encoding(), kv, req, st, chunkSize, load, versionBytes);
      r := if flushed then Stored(st.id, |req.data|, count, etag) else FlushFailed;
    }

    method GetObject(bucket: string, key: string) returns (a: Answer)
      ensures a == ObjectModel.GetObject(Encoding(), kv, bucket, key)
    {
      a := ReadObject(Encoding(), kv, bucket, key);
    }

    method DeleteObject(bucket: string, key: string, now: nat, flushed: bool) returns (r: DeleteResult)
      modifies this
      ensures kv == AfterDelete(Encoding(), old(kv), bucket, key, now, 2)
      ensures load == LoadAfter(old(load), DeleteSizes(Encoding(), old(kv), bucket, key, now, versionBytes))
      ensures r ==
        if ObjectMetaKey(bucket, key) !in old(kv) then NotThere
        else if MetaAt(Encoding(), old(kv), bucket, key) == None then Unreadable
        else if !flushed then NotFlushed
        else Done
      ensures var m, m' := MetaAt(Encoding(), old(kv), bucket, key), MetaAt(Encoding(), kv, bucket, key);
        m.Some? && Plain(m.value) ==> m'.Some? && m'.value.state == 2 && m'.value.updated == now && m'.value.objectId == m.value.objectId
    {
      var there := ObjectMetaKey(bucket, key) in kv;
      var readable := there && Deserialize(kv[ObjectMetaKey(bucket, key)]).Some?;
      if readable && Plain(Deserialize(kv[ObjectMetaKey(bucket, key)]).value) {
        EncodingGood(Encoding());
        DeleteMarks(Encoding(), kv, bucket, key, now, 2);
      }
      kv, load := MarkDeleted(Encoding(), kv, bucket, key, now, load, versionBytes);
      r := if !there then NotThere else if !readable then Unreadable else if flushed then Done else NotFlushed;
    }

    /** Exactly the garbage goes; `log(i)` is the answer of the group commit after the i-th deletion. */
    method GarbageCollectChunks(log: nat -> bool) returns (deleted: nat, ghost gone: set<string>, ghost order: seq<string>)
      modifies this
      ensures forall k :: k in gone <==> IsGarbage(Encoding(), old(kv), k)
      ensures kv == old(kv) - gone && Lists(order, gone)
      ensures Swept(old(load), versionBytes, log, order, load, deleted)
    {
      var ids := Mark(Encoding(), kv);
      forall k ensures Unmarked(Encoding(), kv, ids, k) <==> IsGarbage(Encoding(), kv, k) {
        UnmarkedIsGarbage(Encoding(), kv, ids, k);
      }
      kv, deleted, load, gone, order := Sweep(Encoding(), kv, ids, load, versionBytes, log);
    }
  }
}
