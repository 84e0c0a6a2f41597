/** What single operations of the object store do to every answer, stopped after any of their writes. */
module ObjectAtomic {
  import opened Options
  import opened ObjectKeys
  import opened ObjectModel

  predicate SameAt(kv: KV, kv': KV, k: string) {
    (k in kv <==> k in kv') && (k in kv ==> kv[k] == kv'[k])
  }

  /** The chunks of an object are the same in both maps. */
  ghost predicate SameChunks(sc: Schema, kv: KV, kv': KV, id: string, n: nat) {
    forall i: nat :: i < n ==> SameAt(kv, kv', sc.chunkKey(id, i))
  }

  lemma {:induction false} ChunksSame(sc: Schema, kv: KV, kv': KV, id: string, n: nat)
    requires SameChunks(sc, kv, kv', id, n)
    ensures Chunks(sc, kv, id, n) == Chunks(sc, kv', id, n)
  {
    if n > 0 {
      ChunksSame(sc, kv, kv', id, n - 1);
      assert SameAt(kv, kv', sc.chunkKey(id, n - 1));
    }
  }

  /** An answer depends on the metadata entry and, unless it says deleted, on the chunks it names. */
  lemma AnswerSame(sc: Schema, kv: KV, kv': KV, bucket: string, key: string)
    requires SameAt(kv, kv', sc.metaKey(bucket, key))
    requires var m := MetaAt(sc, kv, bucket, key);
      m.Some? && m.value.state != DELETED ==> SameChunks(sc, kv, kv', m.value.objectId, m.value.chunkCount)
    ensures GetObject(sc, kv, bucket, key) == GetObject(sc, kv', bucket, key)
  {
    var m := MetaAt(sc, kv, bucket, key);
    if m.Some? && m.value.state != DELETED {
      ChunksSame(sc, kv, kv', m.value.objectId, m.value.chunkCount);
    }
  }

  // ---- chunk writes ----

  /** Writing chunks touches their keys only. */
  lemma {:induction false} WithChunksElsewhere(sc: Schema, kv: KV, id: string, data: string, cs: nat, n: nat, k: string)
    requires forall i: nat :: i < n ==> sc.chunkKey(id, i) != k
    ensures SameAt(kv, WithChunks(sc, kv, id, data, cs, n), k)
  {
    if n > 0 {
      WithChunksElsewhere(sc, kv, id, data, cs, n - 1, k);
      assert sc.chunkKey(id, n - 1) != k;
    }
  }

  lemma MetaUntouched(sc: Schema, kv: KV, id: string, data: string, cs: nat, n: nat, k: string)
    requires Good(sc) && sc.isMeta(k)
    ensures SameAt(kv, WithChunks(sc, kv, id, data, cs, n), k)
  {
    forall i: nat | i < n ensures sc.chunkKey(id, i) != k {
      assert ChunkApart(sc, id, i, "", "");
    }
    WithChunksElsewhere(sc, kv, id, data, cs, n, k);
  }

  lemma OthersUntouched(sc: Schema, kv: KV, id: string, data: string, cs: nat, n: nat, id': string, m: nat)
    requires Good(sc) && (id' != id || m == 0)
    ensures SameChunks(sc, kv, WithChunks(sc, kv, id, data, cs, n), id', m)
  {
    forall j: nat | j < m ensures SameAt(kv, WithChunks(sc, kv, id, data, cs, n), sc.chunkKey(id', j)) {
      forall i: nat | i < n ensures sc.chunkKey(id, i) != sc.chunkKey(id', j) {
        assert ChunksApart(sc, id, i, id', j);
      }
      WithChunksElsewhere(sc, kv, id, data, cs, n, sc.chunkKey(id', j));
    }
  }

  lemma {:induction false} PieceAt(sc: Schema, kv: KV, id: string, data: string, cs: nat, n: nat, i: nat)
    requires Good(sc) && i < n
    ensures var kv' := WithChunks(sc, kv, id, data, cs, n); sc.chunkKey(id, i) in kv' && kv'[sc.chunkKey(id, i)] == Piece(data, cs, i)
  {
    if i < n - 1 {
      PieceAt(sc, kv, id, data, cs, n - 1, i);
      assert ChunksApart(sc, id, i, id, n - 1);
    }
  }

  /** Written chunks read back as the data up to where they end. */
  lemma {:induction false} WrittenChunks(sc: Schema, kv: KV, id: string, data: string, cs: nat, n: nat, m: nat)
    requires Good(sc) && m <= n
    ensures Chunks(sc, WithChunks(sc, kv, id, data, cs, n), id, m) == Data(data[..StartOf(data, cs, m)])
    decreases m
  {
    if m > 0 {
      WrittenChunks(sc, kv, id, data, cs, n, m - 1);
      PieceAt(sc, kv, id, data, cs, n, m - 1);
      PieceExtends(data, cs, m - 1);
    }
  }

  /** Entries under keys of another kind do not matter to chunks. */
  lemma OtherKey(sc: Schema, kv: KV, k: string, v: string, bucket: string, key: string, id: string, n: nat)
    requires Good(sc) && (sc.isMeta(k) || k == sc.indexKey(bucket, key) || k == sc.bucketKey(bucket))
    ensures SameChunks(sc, kv, kv[k := v], id, n) && SameChunks(sc, kv, kv - {k}, id, n)
  {
    forall i: nat | i < n ensures SameAt(kv, kv[k := v], sc.chunkKey(id, i)) && SameAt(kv, kv - {k}, sc.chunkKey(id, i)) {
      assert ChunkApart(sc, id, i, bucket, key);
    }
  }

  lemma SameChunksTrans(sc: Schema, a: KV, b: KV, c: KV, id: string, n: nat)
    requires SameChunks(sc, a, b, id, n) && SameChunks(sc, b, c, id, n)
    ensures SameChunks(sc, a, c, id, n)
  {
    forall i: nat | i < n ensures SameAt(a, c, sc.chunkKey(id, i)) {
      assert SameAt(a, b, sc.chunkKey(id, i)) && SameAt(b, c, sc.chunkKey(id, i));
    }
  }

  // ---- PutObject ----

  /** The map as the metadata is written, and as PutObject leaves it. */
  lemma AfterPutChunks(sc: Schema, kv: KV, req: Request, st: Stamp, cs: nat, n: nat, id: string, m: nat)
    requires Good(sc) && cs > 0
    ensures SameChunks(sc, WithChunks(sc, kv, st.id, req.data, cs, Least(n, Count(req.data, cs))), AfterPut(sc, kv, req, st, cs, n), id, m)
  {
    var count := Count(req.data, cs);
    if n > count {
      var base := WithChunks(sc, kv, st.id, req.data, cs, count);
      var k, v := sc.metaKey(req.bucket, req.key), sc.write(NewMeta(req, st, cs));
      assert KindsApart(sc, req.bucket, req.key);
      OtherKey(sc, base, k, v, req.bucket, req.key, id, m);
      if n > count + 1 {
        OtherKey(sc, base[k := v], sc.indexKey(req.bucket, req.key), st.id, req.bucket, req.key, id, m);
        SameChunksTrans(sc, base, base[k := v], base[k := v][sc.indexKey(req.bucket, req.key) := st.id], id, m);
      }
    }
  }

  /** Metadata entries change only at the commit point, and only the object's own. */
  lemma AfterPutMeta(sc: Schema, kv: KV, req: Request, st: Stamp, cs: nat, n: nat, k: string)
    requires Good(sc) && cs > 0 && sc.isMeta(k)
    ensures var kv' := AfterPut(sc, kv, req, st, cs, n);
      if n > Count(req.data, cs) && k == sc.metaKey(req.bucket, req.key)
      then k in kv' && kv'[k] == sc.write(NewMeta(req, st, cs))
      else SameAt(kv, kv', k)
  {
    assert KindsApart(sc, req.bucket, req.key);
    MetaUntouched(sc, kv, st.id, req.data, cs, Least(n, Count(req.data, cs)), k);
  }

  /** The object answers from chunks under this id. */
  predicate Uses(sc: Schema, kv: KV, bucket: string, key: string, id: string) {
    var m := MetaAt(sc, kv, bucket, key);
    m.Some? && m.value.state != DELETED && m.value.objectId == id && m.value.chunkCount > 0
  }

  /** Before the commit point nothing changes for the object, and never for any other object that does not use the id. */
  lemma PutKeeps(sc: Schema, kv: KV, req: Request, st: Stamp, cs: nat, n: nat, bucket: string, key: string)
    requires Good(sc) && cs > 0 && !Uses(sc, kv, bucket, key, st.id)
    requires n <= Count(req.data, cs) || sc.metaKey(bucket, key) != sc.metaKey(req.bucket, req.key)
    ensures GetObject(sc, AfterPut(sc, kv, req, st, cs, n), bucket, key) == GetObject(sc, kv, bucket, key)
  {
    var kv' := AfterPut(sc, kv, req, st, cs, n);
    assert KindsApart(sc, bucket, key);
    AfterPutMeta(sc, kv, req, st, cs, n, sc.metaKey(bucket, key));
    var m := MetaAt(sc, kv, bucket, key);
    if m.Some? && m.value.state != DELETED {
      var id, c, w := m.value.objectId, m.value.chunkCount, Least(n, Count(req.data, cs));
      OthersUntouched(sc, kv, st.id, req.data, cs, w, id, c);
      AfterPutChunks(sc, kv, req, st, cs, n, id, c);
      SameChunksTrans(sc, kv, WithChunks(sc, kv, st.id, req.data, cs, w), kv', id, c);
    }
    AnswerSame(sc, kv, kv', bucket, key);
  }

  lemma PutChunksRead(sc: Schema, kv: KV, req: Request, st: Stamp, cs: nat, n: nat)
    requires Good(sc) && cs > 0 && n > Count(req.data, cs)
    ensures var c := Count(req.data, cs); Chunks(sc, AfterPut(sc, kv, req, st, cs, n), st.id, c) == Data(req.data[..StartOf(req.data, cs, c)])
  {
    var c := Count(req.data, cs);
    WrittenChunks(sc, kv, st.id, req.data, cs, c, c);
    AfterPutChunks(sc, kv, req, st, cs, n, st.id, c);
    ChunksSame(sc, WithChunks(sc, kv, st.id, req.data, cs, c), AfterPut(sc, kv, req, st, cs, n), st.id, c);
  }

  /** From the commit point on the object answers with the new metadata and the stored part of the new data. */
  lemma PutCommits(sc: Schema, kv: KV, req: Request, st: Stamp, cs: nat, n: nat)
    requires Good(sc) && cs > 0 && n > Count(req.data, cs) && Plain(NewMeta(req, st, cs))
    ensures GetObject(sc, AfterPut(sc, kv, req, st, cs, n), req.bucket, req.key)
         == Found(NewMeta(req, st, cs), req.data[..StartOf(req.data, cs, Count(req.data, cs))])
  {
    assert KindsApart(sc, req.bucket, req.key);
    AfterPutMeta(sc, kv, req, st, cs, n, sc.metaKey(req.bucket, req.key));
    assert ReadsBack(sc, NewMeta(req, st, cs));
    PutChunksRead(sc, kv, req, st, cs, n);
  }

  // ---- DeleteObject ----

  lemma DeleteAnswers(sc: Schema, kv: KV, bucket: string, key: string, now: nat, n: nat, bucket': string, key': string)
    requires Good(sc)
    requires var m := MetaAt(sc, kv, bucket, key); m.Some? ==> Plain(m.value)
    ensures GetObject(sc, AfterDelete(sc, kv, bucket, key, now, n), bucket', key') ==
      if n > 0 && MetaAt(sc, kv, bucket, key).Some? && sc.metaKey(bucket', key') == sc.metaKey(bucket, key) then IsDeleted
      else GetObject(sc, kv, bucket', key')
  {
    var m := MetaAt(sc, kv, bucket, key);
    if n > 0 && m.Some? {
      var k, gone, i := sc.metaKey(bucket, key), m.value.(state := DELETED, updated := now), sc.indexKey(bucket, key);
      var marked, kv' := kv[k := sc.write(gone)], AfterDelete(sc, kv, bucket, key, now, n);
      assert KindsApart(sc, bucket, key) && KindsApart(sc, bucket', key');
      assert ReadsBack(sc, gone);
      var m' := MetaAt(sc, kv, bucket', key');
      if sc.metaKey(bucket', key') != k && m'.Some? {
        var id, c := m'.value.objectId, m'.value.chunkCount;
        OtherKey(sc, kv, k, sc.write(gone), bucket, key, id, c);
        OtherKey(sc, marked, i, "", bucket, key, id, c);
        SameChunksTrans(sc, kv, marked, marked - {i}, id, c);
        AnswerSame(sc, kv, kv', bucket', key');
      }
    }
  }

  // ---- garbage collection ----

  /** Every readable object is committed or deleted, as PutObject and DeleteObject write it. */
  predicate StateKnown(sc: Schema, kv: KV, bucket: string, key: string) {
    var m := MetaAt(sc, kv, bucket, key);
    m.Some? ==> m.value.state == COMMITTED || m.value.state == DELETED
  }

  /** Removing any garbage, all of it or not, changes no answer. */
  lemma SweepKeeps(sc: Schema, kv: KV, gone: set<string>, bucket: string, key: string)
    requires Good(sc) && StateKnown(sc, kv, bucket, key) && forall k :: k in gone ==> IsGarbage(sc, kv, k)
    ensures GetObject(sc, kv - gone, bucket, key) == GetObject(sc, kv, bucket, key)
  {
    var k, m := sc.metaKey(bucket, key), MetaAt(sc, kv, bucket, key);
    assert KindsApart(sc, bucket, key) && MetaUnowned(sc, k);
    if m.Some? && m.value.state != DELETED {
      var id := m.value.objectId;
      assert IdOf(sc, kv, k) == Some(id);
      forall i: nat | i < m.value.chunkCount ensures SameAt(kv, kv - gone, sc.chunkKey(id, i)) {
        assert ChunkApart(sc, id, i, bucket, key);
        assert !IsGarbage(sc, kv, sc.chunkKey(id, i));
      }
    }
    AnswerSame(sc, kv, kv - gone, bucket, key);
  }

  /** After a complete sweep every chunk that is left and can be attributed belongs to committed metadata. */
  lemma SweepComplete(sc: Schema, kv: KV, gone: set<string>, k: string)
    requires Good(sc) && forall g :: g in gone <==> IsGarbage(sc, kv, g)
    requires k in kv - gone && sc.owner(k).Some?
    ensures exists meta :: CommittedAs(sc, kv - gone, meta, sc.owner(k).value)
  {
    assert !IsGarbage(sc, kv, k);
    ReachableIff(sc, kv, sc.owner(k).value);
    var meta :| CommittedAs(sc, kv, meta, sc.owner(k).value);
    assert MetaUnowned(sc, meta);
    assert CommittedAs(sc, kv - gone, meta, sc.owner(k).value);
  }
}
