/** What a put and a delete leave in the metadata, field by field, and what a collection does to a deleted object. */
module ObjectFields {
  import opened Options
  import opened ObjectKeys
  import opened ObjectModel
  import opened ObjectAtomic
  import opened ObjectSafety
  import ObjectCrash

  /** The answer has the client's data and texts, the clock reading twice, and is committed. */
  predicate StoredAs(a: Answer, req: Request, id: string, now: nat, etag: string, cs: nat)
    requires cs > 0
  {
    && a.Found?
    && a.meta.objectId == id && a.meta.bucket == req.bucket && a.meta.key == req.key
    && a.meta.size == |req.data| && a.meta.chunkSize == cs && a.meta.chunkCount == Count(req.data, cs)
    && a.meta.contentType == req.contentType && a.meta.etag == etag
    && a.meta.created == now && a.meta.updated == now && a.meta.state == 1
    && a.data == req.data[..StartOf(req.data, cs, Count(req.data, cs))]
    && (AllChunks(req.data, cs) < WIDTH32 ==> a.data == req.data)
  }

  /** Texts that the metadata format carries, and a chunk size of 32 bits. */
  predicate PlainTexts(req: Request, etag: string, cs: nat) {
    TabFree(req.bucket) && TabFree(req.key) && TabFree(req.contentType) && TabFree(etag) && cs < WIDTH32
  }

  lemma PutStores(sc: Schema, kv: KV, req: Request, st: Stamp, cs: nat, n: nat)
    requires Good(sc) && cs > 0 && n > Count(req.data, cs)
    requires TabFree(st.id) && PlainTexts(req, st.etag, cs)
    ensures StoredAs(GetObject(sc, AfterPut(sc, kv, req, st, cs, n), req.bucket, req.key), req, st.id, st.now, st.etag, cs)
    ensures n > Count(req.data, cs) + 1 ==>
      var i := sc.indexKey(req.bucket, req.key); var kv' := AfterPut(sc, kv, req, st, cs, n); i in kv' && kv'[i] == st.id
  {
    PutCommits(sc, kv, req, st, cs, n);
    StoredAllIff(req.data, cs);
  }

  /** After any history: a put that reaches its commit point is what the object then answers. */
  lemma PutIsRead(cs: nat, steps: seq<Step>, put: Step)
    requires cs > 0 && put.Put? && Valid(Encoding(), cs, steps + [put]) && put.n > Count(put.req.data, cs)
    requires !Refused(Encoding(), Run(Encoding(), cs, steps).kv, put.req)
    ensures StoredAs(
      GetObject(Encoding(), Run(Encoding(), cs, steps + [put]).kv, put.req.bucket, put.req.key),
      put.req, ObjectId(put.req.bucket, put.req.key, put.ms), put.now, put.etag, cs)
  {
    EncodingGood(Encoding());
    ObjectCrash.RunOne(Encoding(), cs, steps, put);
    PutStores(Encoding(), Run(Encoding(), cs, steps).kv, put.req, StampOf(put), cs, put.n);
  }

  /** A delete keeps the metadata but for its state and time of change, and drops the index entry. */
  lemma DeleteMarks(sc: Schema, kv: KV, bucket: string, key: string, now: nat, n: nat)
    requires Good(sc) && n > 0 && MetaAt(sc, kv, bucket, key).Some? && Plain(MetaAt(sc, kv, bucket, key).value)
    ensures var kv' := AfterDelete(sc, kv, bucket, key, now, n); var m, m' := MetaAt(sc, kv, bucket, key).value, MetaAt(sc, kv', bucket, key);
      && m'.Some? && m'.value.state == 2 && m'.value.updated == now
      && m'.value.(state := m.state, updated := m.updated) == m
      && (n > 1 ==> sc.indexKey(bucket, key) !in kv')
  {
    var m := MetaAt(sc, kv, bucket, key).value;
    assert KindsApart(sc, bucket, key) && ReadsBack(sc, m.(state := DELETED, updated := now));
  }

  // ---- garbage ----

  /** In every reachable store a chunk is garbage exactly when no object has committed metadata with its id. */
  lemma GarbageIff(cs: nat, steps: seq<Step>, id: string, i: nat)
    requires cs > 0 && id != ""
    ensures var kv := Run(Encoding(), cs, steps).kv;
      IsGarbage(Encoding(), kv, ChunkKey(id, i))
      <==> ChunkKey(id, i) in kv && forall bucket, key :: !CommittedAt(Encoding(), kv, bucket, key, id)
  {
    var sc, kv := Encoding(), Run(Encoding(), cs, steps).kv;
    EncodingGood(sc);
    OwnerOfChunk(id, i);
    ReachableIff(sc, kv, id);
    if k :| CommittedAs(sc, kv, k, id) {
      RunNamed(sc, cs, steps, k);
      var bucket, key :| k == sc.metaKey(bucket, key);
      assert CommittedAt(sc, kv, bucket, key, id);
    }
    if bucket, key :| CommittedAt(sc, kv, bucket, key, id) {
      assert KindsApart(sc, bucket, key);
      assert CommittedAs(sc, kv, sc.metaKey(bucket, key), id);
    }
  }

  /** After a put and a delete of the object no metadata has the put's id in state 1. */
  lemma DeletedId(sc: Schema, cs: nat, s: Store, put: Step, now: nat, bucket: string, key: string)
    requires Good(sc) && cs > 0 && Inv(sc, s) && put.Put? && put.n > Count(put.req.data, cs)
    requires put.ms > s.clock && Plain(NewMeta(put.req, StampOf(put), cs))
    ensures var kv1 := AfterPut(sc, s.kv, put.req, StampOf(put), cs, put.n);
      !CommittedAt(sc, AfterDelete(sc, kv1, put.req.bucket, put.req.key, now, 2), bucket, key, StampOf(put).id)
  {
    var b, k := put.req.bucket, put.req.key;
    var kv1 := AfterPut(sc, s.kv, put.req, StampOf(put), cs, put.n);
    var kv2 := AfterDelete(sc, kv1, b, k, now, 2);
    assert KindsApart(sc, b, k) && KindsApart(sc, bucket, key);
    assert ReadsBack(sc, NewMeta(put.req, StampOf(put), cs));
    AfterPutMeta(sc, s.kv, put.req, StampOf(put), cs, put.n, sc.metaKey(b, k));
    AfterPutMeta(sc, s.kv, put.req, StampOf(put), cs, put.n, sc.metaKey(bucket, key));
    DeleteMarks(sc, kv1, b, k, now, 2);
    if sc.metaKey(bucket, key) == sc.metaKey(b, k) {
      assert MetaAt(sc, kv2, bucket, key) == MetaAt(sc, kv2, b, k);
    } else {
      assert MetaAt(sc, kv2, bucket, key) == MetaAt(sc, s.kv, bucket, key);
      if CommittedAt(sc, kv2, bucket, key, StampOf(put).id) {
        assert EntryOk(sc, s.kv, s.clock, sc.metaKey(bucket, key));
        NewIdUnused(MetaAt(sc, s.kv, bucket, key).value.objectId, s.clock, b, k, put.ms);
      }
    }
  }

  /**
   After any history: a put, a complete delete of the object and a complete collection leave none of
   the put's chunks.
   */
  lemma DeletedIsCollected(cs: nat, steps: seq<Step>, put: Step, now: nat, gone: set<string>, i: nat)
    requires cs > 0 && put.Put? && put.n > Count(put.req.data, cs)
    requires !Refused(Encoding(), Run(Encoding(), cs, steps).kv, put.req)
    requires Valid(Encoding(), cs, steps + [put] + [Delete(put.req.bucket, put.req.key, now, 2)])
    requires var kv := Run(Encoding(), cs, steps + [put] + [Delete(put.req.bucket, put.req.key, now, 2)]).kv;
      forall k :: k in gone <==> IsGarbage(Encoding(), kv, k)
    ensures var kv := Run(Encoding(), cs, steps + [put] + [Delete(put.req.bucket, put.req.key, now, 2)]).kv;
      ChunkKey(ObjectId(put.req.bucket, put.req.key, put.ms), i) !in kv - gone
  {
    var sc, del := Encoding(), Delete(put.req.bucket, put.req.key, now, 2);
    var s, id := Run(sc, cs, steps), StampOf(put).id;
    EncodingGood(sc);
    ObjectCrash.RunOne(sc, cs, steps, put);
    ObjectCrash.RunOne(sc, cs, steps + [put], del);
    RunInv(sc, cs, steps);
    assert |id| > 0;
    forall bucket, key ensures !CommittedAt(sc, Run(sc, cs, steps + [put] + [del]).kv, bucket, key, id) {
      DeletedId(sc, cs, s, put, now, bucket, key);
    }
    GarbageIff(cs, steps + [put] + [del], id, i);
  }
}
