/** Overwriting a large object leaves garbage that a collection removes without counting it. */
module ObjectCount {
  import opened Options
  import LsmStore
  import opened KvLoads
  import opened ObjectKeys
  import opened ObjectModel
  import opened ObjectAtomic
  import opened ObjectSafety
  import opened ObjectStores
  import opened Decimal
  import ObjectClash
  import ObjectCrash

  // ---- the first object's chunks become garbage ----

  lemma {:induction false} WithChunksGrows(sc: Schema, kv: KV, id: string, data: string, cs: nat, n: nat, k: string)
    requires k in kv
    ensures k in WithChunks(sc, kv, id, data, cs, n)
  {
    if n > 0 { WithChunksGrows(sc, kv, id, data, cs, n - 1, k); }
  }

  lemma AfterPutGrows(sc: Schema, kv: KV, req: Request, st: Stamp, cs: nat, n: nat, k: string)
    requires cs > 0 && k in kv
    ensures k in AfterPut(sc, kv, req, st, cs, n)
  {
    WithChunksGrows(sc, kv, st.id, req.data, cs, Least(n, Count(req.data, cs)), k);
  }

  /** A put that ran to its end. */
  predicate Whole(cs: nat, step: Step)
    requires cs > 0
  {
    step.Put? && step.n == Count(step.req.data, cs) + 2
  }

  lemma FirstChunkThere(sc: Schema, cs: nat, kv: KV, a: Step)
    requires Good(sc) && cs > 0 && Whole(cs, a) && Count(a.req.data, cs) > 0
    ensures sc.chunkKey(StampOf(a).id, 0) in AfterPut(sc, kv, a.req, StampOf(a), cs, a.n)
  {
    PieceAt(sc, kv, StampOf(a).id, a.req.data, cs, Count(a.req.data, cs), 0);
  }

  /** After the second put no metadata has the first one's id. */
  lemma IdReplaced(sc: Schema, cs: nat, s: Store, a: Step, b: Step, k: string)
    requires Good(sc) && cs > 0 && Inv(sc, s) && Whole(cs, a) && Whole(cs, b)
    requires s.clock < a.ms < b.ms && a.req.bucket == b.req.bucket && a.req.key == b.req.key && Plain(NewMeta(b.req, StampOf(b), cs))
    ensures var kv1 := AfterPut(sc, s.kv, a.req, StampOf(a), cs, a.n);
      IdOf(sc, AfterPut(sc, kv1, b.req, StampOf(b), cs, b.n), k) != Some(StampOf(a).id)
  {
    var kv1 := AfterPut(sc, s.kv, a.req, StampOf(a), cs, a.n);
    if sc.isMeta(k) {
      AfterPutMeta(sc, s.kv, a.req, StampOf(a), cs, a.n, k);
      AfterPutMeta(sc, kv1, b.req, StampOf(b), cs, b.n, k);
      if k == sc.metaKey(b.req.bucket, b.req.key) {
        assert ReadsBack(sc, NewMeta(b.req, StampOf(b), cs));
        if StampOf(a).id == StampOf(b).id { ObjectIdInjective(a.req.bucket, a.req.key, a.ms, b.req.bucket, b.req.key, b.ms); }
      } else if k in s.kv {
        assert EntryOk(sc, s.kv, s.clock, k);
        NewIdUnused(sc.read(s.kv[k]).value.objectId, s.clock, a.req.bucket, a.req.key, a.ms);
      }
    }
  }

  /** Two complete puts of one object, one after the other: the first one's chunks are garbage. */
  lemma OverwrittenIsGarbage(sc: Schema, cs: nat, s: Store, a: Step, b: Step)
    requires Good(sc) && cs > 0 && Inv(sc, s) && Whole(cs, a) && Whole(cs, b) && Count(a.req.data, cs) > 0
    requires s.clock < a.ms < b.ms && a.req.bucket == b.req.bucket && a.req.key == b.req.key && Plain(NewMeta(b.req, StampOf(b), cs))
    requires !Refused(sc, s.kv, a.req)
    ensures IsGarbage(sc, Next(sc, cs, Next(sc, cs, s, a), b).kv, sc.chunkKey(StampOf(a).id, 0))
  {
    var id, k := StampOf(a).id, sc.chunkKey(StampOf(a).id, 0);
    var kv1 := AfterPut(sc, s.kv, a.req, StampOf(a), cs, a.n);
    var kv2 := AfterPut(sc, kv1, b.req, StampOf(b), cs, b.n);
    AfterPutGrows(sc, s.kv, a.req, StampOf(a), cs, a.n, sc.bucketKey(a.req.bucket));
    assert Next(sc, cs, Next(sc, cs, s, a), b).kv == kv2;
    FirstChunkThere(sc, cs, s.kv, a);
    AfterPutGrows(sc, kv1, b.req, StampOf(b), cs, b.n, k);
    assert ChunkApart(sc, id, 0, "", "");
    assert |id| > 0;
    forall m ensures IdOf(sc, kv2, m) != Some(id) {
      IdReplaced(sc, cs, s, a, b, m);
    }
  }

  // ---- the memtable is full behind a taken slot ----

  lemma SumMore(sizes: seq<nat>, size: nat)
    ensures Sum(sizes + [size]) == Sum(sizes) + size
  {
    assert (sizes + [size])[..|sizes|] == sizes;
  }

  lemma {:induction false} ChunkBytes(sc: Schema, id: string, data: string, cs: nat, vb: nat, n: nat)
    ensures Sum(ChunkSizes(sc, id, data, cs, vb, n)) >= StartOf(data, cs, n)
  {
    if n > 0 {
      ChunkBytes(sc, id, data, cs, vb, n - 1);
      SumMore(ChunkSizes(sc, id, data, cs, vb, n - 1), EntrySize(sc.chunkKey(id, n - 1), Some(Piece(data, cs, n - 1)), vb));
      PieceExtends(data, cs, n - 1);
      assert |data[..StartOf(data, cs, n - 1)] + Piece(data, cs, n - 1)| == StartOf(data, cs, n);
    }
  }

  /** A put weighs at least what it stores. */
  lemma PutBytes(sc: Schema, req: Request, st: Stamp, cs: nat, vb: nat)
    requires cs > 0 && AllChunks(req.data, cs) < WIDTH32
    ensures Sum(PutSizes(sc, req, st, cs, vb)) >= |req.data|
  {
    var chunks := ChunkSizes(sc, st.id, req.data, cs, vb, Count(req.data, cs));
    var m := EntrySize(sc.metaKey(req.bucket, req.key), Some(sc.write(NewMeta(req, st, cs))), vb);
    ChunkBytes(sc, st.id, req.data, cs, vb, Count(req.data, cs));
    StoredAllIff(req.data, cs);
    SumMore(chunks, m);
    SumMore(chunks + [m], EntrySize(sc.indexKey(req.bucket, req.key), Some(st.id), vb));
  }

  function LoadOfPut(cs: nat, vb: nat, load: Load, step: Step): Load
    requires cs > 0 && step.Put?
  {
    LoadAfter(load, PutSizes(Encoding(), step.req, StampOf(step), cs, vb))
  }

  /** An object large enough to fill the memtable. */
  predicate Large(cs: nat, step: Step)
    requires cs > 0
  {
    Whole(cs, step) && |step.req.data| >= LsmStore.FLUSH_THRESHOLD && AllChunks(step.req.data, cs) < WIDTH32
  }

  lemma LargeCount(data: string, cs: nat)
    requires cs > 0 && data != "" && AllChunks(data, cs) < WIDTH32
    ensures Count(data, cs) > 0
  {
    ChunksCover(data, cs);
  }

  /**
   After any history two large puts of one object in an existing bucket leave garbage, and the
   collection that follows removes it and reports 0, whatever its order and the answers of the log.
   */
  lemma RemovedUncounted(
      cs: nat, steps: seq<Step>, a: Step, b: Step, load: Load, vb: nat,
      log: nat -> bool, gone: set<string>, order: seq<string>, load': Load, deleted: nat)
    requires cs > 0 && Large(cs, a) && Large(cs, b) && a.req.bucket == b.req.bucket && a.req.key == b.req.key
    requires Valid(Encoding(), cs, steps + [a] + [b]) && !Refused(Encoding(), Run(Encoding(), cs, steps).kv, a.req)
    requires forall k :: k in gone <==> IsGarbage(Encoding(), Run(Encoding(), cs, steps + [a] + [b]).kv, k)
    requires Swept(LoadOfPut(cs, vb, LoadOfPut(cs, vb, load, a), b), vb, log, order, load', deleted)
    ensures gone != {} && deleted == 0
  {
    var sc := Encoding();
    var s := Run(sc, cs, steps);
    EncodingGood(sc);
    ObjectCrash.RunOne(sc, cs, steps, a);
    ObjectCrash.RunOne(sc, cs, steps + [a], b);
    RunInv(sc, cs, steps);
    LargeCount(a.req.data, cs);
    OverwrittenIsGarbage(sc, cs, s, a, b);
    assert sc.chunkKey(StampOf(a).id, 0) in gone;
    PutBytes(sc, a.req, StampOf(a), cs, vb);
    PutBytes(sc, b.req, StampOf(b), cs, vb);
    TwiceFills(load, PutSizes(sc, a.req, StampOf(a), cs, vb), PutSizes(sc, b.req, StampOf(b), cs, vb));
    CountCanBeZero(LoadOfPut(cs, vb, LoadOfPut(cs, vb, load, a), b), vb, log, order, load', deleted);
  }

  // ---- such puts exist ----

  function LargePut(cs: nat, ms: nat): Step
    requires cs > 0
  {
    var data := ObjectClash.Fill('x', LsmStore.FLUSH_THRESHOLD);
    Put(Request("b", "k", data, ""), ms, 0, "", Count(data, cs) + 2)
  }

  lemma FewChunks(data: string, cs: nat)
    requires cs > 0
    ensures AllChunks(data, cs) <= |data|
  {
    var c := AllChunks(data, cs);
    ChunksCover(data, cs);
    if c > 0 { TimesAtLeast(c - 1, cs); }
  }

  lemma TimesAtLeast(n: nat, m: nat)
    requires m > 0
    ensures n <= n * m
  {
  }

  lemma LargePutPlain(cs: nat, ms: nat)
    requires 0 < cs < WIDTH32
    ensures Large(cs, LargePut(cs, ms)) && Plain(NewMeta(LargePut(cs, ms).req, StampOf(LargePut(cs, ms)), cs))
  {
    var step := LargePut(cs, ms);
    FewChunks(step.req.data, cs);
    assert forall c :: c in ToString(ms) ==> IsDigit(c);
    assert TabFree(StampOf(step).id);
  }

  /** For every chunk size there is a history as the lemma above asks for. */
  lemma LargePutsHappen(cs: nat)
    requires 0 < cs < WIDTH32
    ensures var steps, a, b := [CreateBucket("b", "")], LargePut(cs, 1), LargePut(cs, 2);
      && Large(cs, a) && Large(cs, b) && a.req == b.req
      && Valid(Encoding(), cs, steps + [a] + [b]) && !Refused(Encoding(), Run(Encoding(), cs, steps).kv, a.req)
  {
    var sc, make := Encoding(), CreateBucket("b", "");
    var a, b := LargePut(cs, 1), LargePut(cs, 2);
    LargePutPlain(cs, 1);
    LargePutPlain(cs, 2);
    ObjectCrash.RunOne(sc, cs, [], make);
    assert [] + [make] == [make];
    ObjectCrash.RunOne(sc, cs, [make], a);
    ObjectCrash.RunOne(sc, cs, [make] + [a], b);
    assert Run(sc, cs, [make]).clock == 0;
  }
}
