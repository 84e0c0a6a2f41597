/** Every history of puts, overwrites, deletes and collections, each possibly stopped half-way. */
module ObjectSafety {
  import opened Options
  import opened ObjectKeys
  import opened ObjectModel
  import opened ObjectAtomic
  import opened ObjectClash

  /** The encodings of include/kv/object_store_key_codec.h and src/object_store.cpp. */
  function Encoding(): Schema {
    Schema(BucketMetaKey, ObjectMetaKey, BucketIndexKey, ChunkKey, IsObjectMeta, Owner, Deserialize, Serialize)
  }

  lemma EncodingGood(sc: Schema)
    requires sc == Encoding()
    ensures Good(sc)
  {
    forall id, i, id', j ensures ChunksApart(sc, id, i, id', j) {
      if ChunkKey(id, i) == ChunkKey(id', j) { ChunkKeyInjective(id, i, id', j); }
    }
    forall bucket, key ensures KindsApart(sc, bucket, key) {
      KindsDiffer(bucket, key, "", 0);
    }
    forall id, i, bucket, key ensures ChunkApart(sc, id, i, bucket, key) {
      KindsDiffer(bucket, key, id, i);
      OwnerOfChunk(id, i);
    }
    forall k ensures MetaUnowned(sc, k) {
      if IsObjectMeta(k) { assert k[3] == "objmeta:"[3]; assert !IsChunk(k); }
    }
    forall m ensures ReadsBack(sc, m) {
      if Plain(m) { MetadataRoundTrip(m); }
    }
  }

  // ---- histories ----

  datatype Store = Store(kv: KV, clock: nat)

  /** `n` says how many of an operation's writes happened before it stopped. */
  datatype Step =
    | CreateBucket(bucket: string, value: string)
    | Put(req: Request, ms: nat, now: nat, etag: string, n: nat)
    | Delete(bucket: string, key: string, now: nat, n: nat)
    | Collect(gone: set<string>)

  function StampOf(step: Step): Stamp
    requires step.Put?
  {
    Stamp(ObjectId(step.req.bucket, step.req.key, step.ms), step.now, step.etag)
  }

  function Next(sc: Schema, cs: nat, s: Store, step: Step): Store
    requires cs > 0
  {
    match step
    case CreateBucket(bucket, value) =>
      if bucket == "" || sc.bucketKey(bucket) in s.kv then s else s.(kv := s.kv[sc.bucketKey(bucket) := value])
    case Put(req, ms, now, etag, n) =>
      if Refused(sc, s.kv, req) then s else Store(AfterPut(sc, s.kv, req, StampOf(step), cs, n), ms)
    case Delete(bucket, key, now, n) => s.(kv := AfterDelete(sc, s.kv, bucket, key, now, n))
    case Collect(gone) => s.(kv := s.kv - gone)
  }

  /** The clock moves between puts, texts have no tabs, and a collection removes garbage only. */
  ghost predicate Possible(sc: Schema, cs: nat, s: Store, step: Step)
    requires cs > 0
  {
    match step
    case CreateBucket(_, _) => true
    case Put(req, ms, now, etag, n) => ms > s.clock && Plain(NewMeta(req, StampOf(step), cs))
    case Delete(_, _, _, _) => true
    case Collect(gone) => forall k :: k in gone ==> IsGarbage(sc, s.kv, k)
  }

  function Run(sc: Schema, cs: nat, steps: seq<Step>): Store
    requires cs > 0
  {
    if steps == [] then Store(map[], 0) else Next(sc, cs, Run(sc, cs, steps[..|steps| - 1]), steps[|steps| - 1])
  }

  ghost predicate Valid(sc: Schema, cs: nat, steps: seq<Step>)
    requires cs > 0
  {
    steps == [] ||
      var front := steps[..|steps| - 1];
      Valid(sc, cs, front) && Possible(sc, cs, Run(sc, cs, front), steps[|steps| - 1])
  }

  /** What an object must answer: the last put that reached its commit point, unless deleted since. */
  function Effect(sc: Schema, cs: nat, s: Store, step: Step, before: Answer, bucket: string, key: string): Answer
    requires cs > 0
  {
    match step
    case CreateBucket(_, _) => before
    case Put(req, ms, now, etag, n) =>
      if !Refused(sc, s.kv, req) && n > Count(req.data, cs) && sc.metaKey(bucket, key) == sc.metaKey(req.bucket, req.key)
      then Found(NewMeta(req, StampOf(step), cs), req.data[..StartOf(req.data, cs, Count(req.data, cs))])
      else before
    case Delete(b, k, now, n) =>
      if n > 0 && before != NoMetadata && sc.metaKey(bucket, key) == sc.metaKey(b, k) then IsDeleted else before
    case Collect(_) => before
  }

  function Expected(sc: Schema, cs: nat, steps: seq<Step>, bucket: string, key: string): Answer
    requires cs > 0
  {
    if steps == [] then NoMetadata
    else
      var front := steps[..|steps| - 1];
      Effect(sc, cs, Run(sc, cs, front), steps[|steps| - 1], Expected(sc, cs, front, bucket, key), bucket, key)
  }

  // ---- the invariant ----

  predicate IsIssued(id: string, clock: nat, bucket: string, key: string, ms: nat) {
    ms <= clock && id == ObjectId(bucket, key, ms)
  }

  ghost predicate Issued(id: string, clock: nat) {
    exists bucket, key, ms :: IsIssued(id, clock, bucket, key, ms)
  }

  ghost predicate GoodMeta(sc: Schema, kv: KV, clock: nat, m: Metadata) {
    && Plain(m) && Issued(m.objectId, clock)
    && (m.state == COMMITTED || m.state == DELETED)
    && (m.state == COMMITTED ==> Chunks(sc, kv, m.objectId, m.chunkCount).Data?)
  }

  ghost predicate EntryOk(sc: Schema, kv: KV, clock: nat, k: string) {
    k in kv && sc.isMeta(k) ==> sc.read(kv[k]).Some? && GoodMeta(sc, kv, clock, sc.read(kv[k]).value)
  }

  ghost predicate Inv(sc: Schema, s: Store) {
    forall k :: EntryOk(sc, s.kv, s.clock, k)
  }

  lemma LaterClock(id: string, clock: nat, clock': nat)
    requires Issued(id, clock) && clock <= clock'
    ensures Issued(id, clock')
  {
    var bucket, key, ms :| IsIssued(id, clock, bucket, key, ms);
    assert IsIssued(id, clock', bucket, key, ms);
  }

  /** A later clock gives an id that was never issued. */
  lemma NewIdUnused(id: string, clock: nat, bucket: string, key: string, ms: nat)
    requires Issued(id, clock) && ms > clock
    ensures id != ObjectId(bucket, key, ms)
  {
    var b, k, t :| IsIssued(id, clock, b, k, t);
    if id == ObjectId(bucket, key, ms) {
      ObjectIdInjective(bucket, key, ms, b, k, t);
    }
  }

  lemma NotInUse(sc: Schema, s: Store, step: Step, bucket: string, key: string)
    requires Good(sc) && Inv(sc, s) && step.Put? && step.ms > s.clock
    ensures !Uses(sc, s.kv, bucket, key, StampOf(step).id)
  {
    assert KindsApart(sc, bucket, key);
    assert EntryOk(sc, s.kv, s.clock, sc.metaKey(bucket, key));
    if MetaAt(sc, s.kv, bucket, key).Some? {
      NewIdUnused(MetaAt(sc, s.kv, bucket, key).value.objectId, s.clock, step.req.bucket, step.req.key, step.ms);
    }
  }

  /** An entry that stays, with its chunks, stays good. */
  lemma EntryStays(sc: Schema, kv: KV, kv': KV, clock: nat, clock': nat, k: string)
    requires EntryOk(sc, kv, clock, k) && clock <= clock' && SameAt(kv, kv', k)
    requires k in kv && sc.isMeta(k) && sc.read(kv[k]).value.state == COMMITTED ==>
      SameChunks(sc, kv, kv', sc.read(kv[k]).value.objectId, sc.read(kv[k]).value.chunkCount)
    ensures EntryOk(sc, kv', clock', k)
  {
    if k in kv && sc.isMeta(k) {
      var m := sc.read(kv[k]).value;
      LaterClock(m.objectId, clock, clock');
      if m.state == COMMITTED { ChunksSame(sc, kv, kv', m.objectId, m.chunkCount); }
    }
  }

  lemma PutEntry(sc: Schema, cs: nat, s: Store, step: Step, k: string)
    requires Good(sc) && Inv(sc, s) && cs > 0 && step.Put? && Possible(sc, cs, s, step) && !Refused(sc, s.kv, step.req)
    ensures EntryOk(sc, Next(sc, cs, s, step).kv, step.ms, k)
  {
    var req, st, n := step.req, StampOf(step), step.n;
    var kv', count := AfterPut(sc, s.kv, req, st, cs, n), Count(req.data, cs);
    if sc.isMeta(k) {
      AfterPutMeta(sc, s.kv, req, st, cs, n, k);
      assert EntryOk(sc, s.kv, s.clock, k);
      if n > count && k == sc.metaKey(req.bucket, req.key) {
        assert ReadsBack(sc, NewMeta(req, st, cs));
        PutChunksRead(sc, s.kv, req, st, cs, n);
        assert IsIssued(st.id, step.ms, req.bucket, req.key, step.ms);
      } else {
        if k in s.kv {
          var m := sc.read(s.kv[k]).value;
          NewIdUnused(m.objectId, s.clock, req.bucket, req.key, step.ms);
          var w := Least(n, count);
          OthersUntouched(sc, s.kv, st.id, req.data, cs, w, m.objectId, m.chunkCount);
          AfterPutChunks(sc, s.kv, req, st, cs, n, m.objectId, m.chunkCount);
          SameChunksTrans(sc, s.kv, WithChunks(sc, s.kv, st.id, req.data, cs, w), kv', m.objectId, m.chunkCount);
        }
        EntryStays(sc, s.kv, kv', s.clock, step.ms, k);
      }
    }
  }

  lemma DeleteEntry(sc: Schema, s: Store, bucket: string, key: string, now: nat, n: nat, k: string)
    requires Good(sc) && Inv(sc, s)
    ensures EntryOk(sc, AfterDelete(sc, s.kv, bucket, key, now, n), s.clock, k)
  {
    var kv, m := s.kv, MetaAt(sc, s.kv, bucket, key);
    assert EntryOk(sc, kv, s.clock, k) && EntryOk(sc, kv, s.clock, sc.metaKey(bucket, key));
    if n > 0 && m.Some? && sc.isMeta(k) && k in kv {
      var mk, gone, i := sc.metaKey(bucket, key), m.value.(state := DELETED, updated := now), sc.indexKey(bucket, key);
      var marked, kv' := kv[mk := sc.write(gone)], AfterDelete(sc, kv, bucket, key, now, n);
      assert KindsApart(sc, bucket, key) && ReadsBack(sc, gone);
      if k != mk {
        var x := sc.read(kv[k]).value;
        OtherKey(sc, kv, mk, sc.write(gone), bucket, key, x.objectId, x.chunkCount);
        OtherKey(sc, marked, i, "", bucket, key, x.objectId, x.chunkCount);
        SameChunksTrans(sc, kv, marked, marked - {i}, x.objectId, x.chunkCount);
        EntryStays(sc, kv, kv', s.clock, s.clock, k);
      }
    }
  }

  lemma CollectEntry(sc: Schema, s: Store, gone: set<string>, k: string)
    requires Good(sc) && Inv(sc, s) && forall g :: g in gone ==> IsGarbage(sc, s.kv, g)
    ensures EntryOk(sc, s.kv - gone, s.clock, k)
  {
    assert EntryOk(sc, s.kv, s.clock, k) && MetaUnowned(sc, k);
    if k in s.kv && sc.isMeta(k) {
      var m := sc.read(s.kv[k]).value;
      if m.state == COMMITTED {
        assert IdOf(sc, s.kv, k) == Some(m.objectId);
        forall i: nat | i < m.chunkCount ensures SameAt(s.kv, s.kv - gone, sc.chunkKey(m.objectId, i)) {
          assert ChunkApart(sc, m.objectId, i, "", "");
          assert !IsGarbage(sc, s.kv, sc.chunkKey(m.objectId, i));
        }
      }
      EntryStays(sc, s.kv, s.kv - gone, s.clock, s.clock, k);
    }
  }

  lemma CreateEntry(sc: Schema, s: Store, bucket: string, value: string, k: string)
    requires Good(sc) && Inv(sc, s)
    ensures EntryOk(sc, s.kv[sc.bucketKey(bucket) := value], s.clock, k)
  {
    assert EntryOk(sc, s.kv, s.clock, k) && KindsApart(sc, bucket, "");
    if k in s.kv && sc.isMeta(k) {
      var m := sc.read(s.kv[k]).value;
      OtherKey(sc, s.kv, sc.bucketKey(bucket), value, bucket, "", m.objectId, m.chunkCount);
      EntryStays(sc, s.kv, s.kv[sc.bucketKey(bucket) := value], s.clock, s.clock, k);
    }
  }

  lemma StepKeepsInv(sc: Schema, cs: nat, s: Store, step: Step)
    requires Good(sc) && Inv(sc, s) && cs > 0 && Possible(sc, cs, s, step)
    ensures Inv(sc, Next(sc, cs, s, step))
  {
    var s' := Next(sc, cs, s, step);
    forall k ensures EntryOk(sc, s'.kv, s'.clock, k) {
      assert EntryOk(sc, s.kv, s.clock, k);
      match step
      case CreateBucket(bucket, value) => CreateEntry(sc, s, bucket, value, k);
      case Put(req, _, _, _, _) => if !Refused(sc, s.kv, req) { PutEntry(sc, cs, s, step, k); }
      case Delete(bucket, key, now, n) => DeleteEntry(sc, s, bucket, key, now, n, k);
      case Collect(gone) => CollectEntry(sc, s, gone, k);
    }
  }

  /** Every step has exactly its intended effect on every object. */
  lemma StepAnswers(sc: Schema, cs: nat, s: Store, step: Step, bucket: string, key: string)
    requires Good(sc) && Inv(sc, s) && cs > 0 && Possible(sc, cs, s, step)
    ensures GetObject(sc, Next(sc, cs, s, step).kv, bucket, key) == Effect(sc, cs, s, step, GetObject(sc, s.kv, bucket, key), bucket, key)
  {
    assert KindsApart(sc, bucket, key) && EntryOk(sc, s.kv, s.clock, sc.metaKey(bucket, key));
    match step
    case CreateBucket(b, value) => CreateAnswer(sc, s, b, value, bucket, key);
    case Put(req, ms, now, etag, n) => if !Refused(sc, s.kv, req) { PutAnswer(sc, cs, s, step, bucket, key); }
    case Delete(b, k, now, n) =>
      assert KindsApart(sc, b, k) && EntryOk(sc, s.kv, s.clock, sc.metaKey(b, k));
      DeleteAnswers(sc, s.kv, b, k, now, n, bucket, key);
    case Collect(gone) => SweepKeeps(sc, s.kv, gone, bucket, key);
  }

  lemma CreateAnswer(sc: Schema, s: Store, b: string, value: string, bucket: string, key: string)
    requires Good(sc)
    ensures GetObject(sc, s.kv[sc.bucketKey(b) := value], bucket, key) == GetObject(sc, s.kv, bucket, key)
  {
    assert KindsApart(sc, bucket, key) && KindsApart(sc, b, key);
    var m := MetaAt(sc, s.kv, bucket, key);
    if m.Some? { OtherKey(sc, s.kv, sc.bucketKey(b), value, b, "", m.value.objectId, m.value.chunkCount); }
    AnswerSame(sc, s.kv, s.kv[sc.bucketKey(b) := value], bucket, key);
  }

  lemma PutAnswer(sc: Schema, cs: nat, s: Store, step: Step, bucket: string, key: string)
    requires Good(sc) && Inv(sc, s) && cs > 0 && step.Put? && Possible(sc, cs, s, step) && !Refused(sc, s.kv, step.req)
    ensures GetObject(sc, Next(sc, cs, s, step).kv, bucket, key) == Effect(sc, cs, s, step, GetObject(sc, s.kv, bucket, key), bucket, key)
  {
    var req, st := step.req, StampOf(step);
    NotInUse(sc, s, step, bucket, key);
    if step.n > Count(req.data, cs) && sc.metaKey(bucket, key) == sc.metaKey(req.bucket, req.key) {
      PutCommits(sc, s.kv, req, st, cs, step.n);
      assert GetObject(sc, Next(sc, cs, s, step).kv, bucket, key) == GetObject(sc, Next(sc, cs, s, step).kv, req.bucket, req.key);
    } else {
      PutKeeps(sc, s.kv, req, st, cs, step.n, bucket, key);
    }
  }

  lemma {:induction false} RunInv(sc: Schema, cs: nat, steps: seq<Step>)
    requires Good(sc) && cs > 0 && Valid(sc, cs, steps)
    ensures Inv(sc, Run(sc, cs, steps))
  {
    if steps != [] {
      var front := steps[..|steps| - 1];
      RunInv(sc, cs, front);
      StepKeepsInv(sc, cs, Run(sc, cs, front), steps[|steps| - 1]);
    }
  }

  lemma {:induction false} RunAnswers(sc: Schema, cs: nat, steps: seq<Step>, bucket: string, key: string)
    requires Good(sc) && cs > 0 && Valid(sc, cs, steps)
    ensures GetObject(sc, Run(sc, cs, steps).kv, bucket, key) == Expected(sc, cs, steps, bucket, key)
  {
    if steps != [] {
      var front := steps[..|steps| - 1];
      RunAnswers(sc, cs, front, bucket, key);
      RunInv(sc, cs, front);
      StepAnswers(sc, cs, Run(sc, cs, front), steps[|steps| - 1], bucket, key);
    }
  }

  // ---- which keys there are ----

  predicate PlainKey(sc: Schema, k: string, bucket: string, key: string) {
    k == sc.indexKey(bucket, key) || k == sc.bucketKey(bucket)
  }

  /** A key is that of metadata, of a chunk with an owner, of an index entry or of a bucket. */
  ghost predicate KnownKey(sc: Schema, k: string) {
    sc.isMeta(k) || sc.owner(k).Some? || exists bucket, key :: PlainKey(sc, k, bucket, key)
  }

  ghost predicate KnownIn(sc: Schema, kv: KV, k: string) {
    k in kv ==> KnownKey(sc, k)
  }

  lemma {:induction false} WithChunksKnown(sc: Schema, kv: KV, id: string, data: string, cs: nat, n: nat, k: string)
    requires Good(sc) && id != "" && KnownIn(sc, kv, k)
    ensures KnownIn(sc, WithChunks(sc, kv, id, data, cs, n), k)
  {
    if n > 0 {
      WithChunksKnown(sc, kv, id, data, cs, n - 1, k);
      assert ChunkApart(sc, id, n - 1, "", "");
    }
  }

  lemma AfterPutKnown(sc: Schema, kv: KV, req: Request, st: Stamp, cs: nat, n: nat, k: string)
    requires Good(sc) && cs > 0 && st.id != "" && KnownIn(sc, kv, k)
    ensures KnownIn(sc, AfterPut(sc, kv, req, st, cs, n), k)
  {
    WithChunksKnown(sc, kv, st.id, req.data, cs, Least(n, Count(req.data, cs)), k);
    assert KindsApart(sc, req.bucket, req.key);
    assert PlainKey(sc, sc.indexKey(req.bucket, req.key), req.bucket, req.key);
  }

  lemma {:induction false} RunKnown(sc: Schema, cs: nat, steps: seq<Step>, k: string)
    requires Good(sc) && cs > 0
    ensures KnownIn(sc, Run(sc, cs, steps).kv, k)
  {
    if steps != [] {
      var s, step := Run(sc, cs, steps[..|steps| - 1]), steps[|steps| - 1];
      RunKnown(sc, cs, steps[..|steps| - 1], k);
      match step
      case CreateBucket(bucket, _) => assert PlainKey(sc, sc.bucketKey(bucket), bucket, "");
      case Put(req, ms, _, _, n) => AfterPutKnown(sc, s.kv, req, StampOf(step), cs, n, k);
      case Delete(_, _, _, _) =>
      case Collect(_) =>
    }
  }

  /** Metadata stands under the key of a bucket and an object. */
  ghost predicate NamedIn(sc: Schema, kv: KV, k: string) {
    k in kv && sc.isMeta(k) ==> exists bucket, key :: k == sc.metaKey(bucket, key)
  }

  lemma {:induction false} RunNamed(sc: Schema, cs: nat, steps: seq<Step>, k: string)
    requires Good(sc) && cs > 0
    ensures NamedIn(sc, Run(sc, cs, steps).kv, k)
  {
    if steps != [] && sc.isMeta(k) {
      var s, step := Run(sc, cs, steps[..|steps| - 1]), steps[|steps| - 1];
      RunNamed(sc, cs, steps[..|steps| - 1], k);
      match step
      case CreateBucket(bucket, _) => assert KindsApart(sc, bucket, "");
      case Put(req, ms, _, _, n) => AfterPutMeta(sc, s.kv, req, StampOf(step), cs, n, k);
      case Delete(_, _, _, _) =>
      case Collect(_) =>
    }
  }

  /** The object has committed metadata, state 1, with this id. */
  predicate CommittedAt(sc: Schema, kv: KV, bucket: string, key: string, id: string) {
    var m := MetaAt(sc, kv, bucket, key);
    m.Some? && m.value.objectId == id && m.value.state == 1
  }

  /** Every chunk there is names its object. */
  lemma ChunksNamed(cs: nat, steps: seq<Step>, k: string)
    requires cs > 0 && k in Run(Encoding(), cs, steps).kv && IsChunk(k)
    ensures Owner(k).Some?
  {
    EncodingGood(Encoding());
    RunKnown(Encoding(), cs, steps, k);
    assert KnownKey(Encoding(), k);
    assert MetaUnowned(Encoding(), k);
    if Owner(k) == None && !IsObjectMeta(k) {
      var bucket, key :| PlainKey(Encoding(), k, bucket, key);
      KindsDiffer(bucket, key, "", 0);
    }
    MetaIsNoChunk(k);
  }

  lemma MetaIsNoChunk(k: string)
    requires IsChunk(k)
    ensures !IsObjectMeta(k)
  {
    assert k[3] == "objchunk:"[3];
  }

  // ---- the theorems ----

  /**
   After any history, each operation of which may have stopped after any of its writes, an object
   answers with its last put that reached the commit point, or as deleted, or not at all.
   */
  lemma AnswersFollowHistory(cs: nat, steps: seq<Step>, bucket: string, key: string)
    requires cs > 0 && Valid(Encoding(), cs, steps)
    ensures GetObject(Encoding(), Run(Encoding(), cs, steps).kv, bucket, key) == Expected(Encoding(), cs, steps, bucket, key)
  {
    EncodingGood(Encoding());
    RunAnswers(Encoding(), cs, steps, bucket, key);
  }

  /** No read ever meets unreadable metadata or a missing chunk. */
  lemma NeverTorn(cs: nat, steps: seq<Step>, bucket: string, key: string)
    requires cs > 0 && Valid(Encoding(), cs, steps)
    ensures var a := GetObject(Encoding(), Run(Encoding(), cs, steps).kv, bucket, key); a == NoMetadata || a == IsDeleted || a.Found?
  {
    EncodingGood(Encoding());
    RunInv(Encoding(), cs, steps);
    NoTear(Encoding(), Run(Encoding(), cs, steps), bucket, key);
  }

  lemma NoTear(sc: Schema, s: Store, bucket: string, key: string)
    requires Good(sc) && Inv(sc, s)
    ensures var a := GetObject(sc, s.kv, bucket, key); a == NoMetadata || a == IsDeleted || a.Found?
  {
    assert KindsApart(sc, bucket, key) && EntryOk(sc, s.kv, s.clock, sc.metaKey(bucket, key));
  }

  /** An overwrite is atomic, whatever the data, exactly when no live object with chunks has the new object id. */
  lemma OverwriteAtomicIff(cs: nat, steps: seq<Step>, target: Request, st: Stamp)
    requires cs > 0 && Valid(Encoding(), cs, steps) && Plain(NewMeta(target, st, cs))
    ensures var kv := Run(Encoding(), cs, steps).kv;
      AlwaysAtomic(Encoding(), kv, target, st, cs) <==> forall bucket, key :: !Uses(Encoding(), kv, bucket, key, st.id)
  {
    EncodingGood(Encoding());
    RunComplete(Encoding(), cs, steps);
    AtomicIff(Encoding(), Run(Encoding(), cs, steps).kv, target, st, cs);
  }

  /** A bucket, and one complete put into it. */
  function FirstPut(cs: nat, req: Request, value: string, ms: nat, now: nat, etag: string): seq<Step>
    requires cs > 0
  {
    [CreateBucket(req.bucket, value), Put(req, ms, now, etag, Count(req.data, cs) + 2)]
  }

  lemma FirstPutRun(sc: Schema, cs: nat, req: Request, value: string, ms: nat, now: nat, etag: string)
    requires Good(sc) && cs > 0 && req.bucket != "" && req.key != "" && ms > 0
    requires Plain(NewMeta(req, Stamp(ObjectId(req.bucket, req.key, ms), now, etag), cs))
    ensures var steps := FirstPut(cs, req, value, ms, now, etag);
      && Valid(sc, cs, steps)
      && MetaAt(sc, Run(sc, cs, steps).kv, req.bucket, req.key) == Some(NewMeta(req, Stamp(ObjectId(req.bucket, req.key, ms), now, etag), cs))
  {
    var steps := FirstPut(cs, req, value, ms, now, etag);
    var created, st := steps[..1], Stamp(ObjectId(req.bucket, req.key, ms), now, etag);
    assert created[..0] == [] && steps[..|steps| - 1] == created;
    assert Run(sc, cs, []) == Store(map[], 0);
    assert Valid(sc, cs, []) && Valid(sc, cs, created);
    var s := Run(sc, cs, created);
    assert s == Store(map[sc.bucketKey(req.bucket) := value], 0);
    PutCommits(sc, s.kv, req, st, cs, Count(req.data, cs) + 2);
    assert KindsApart(sc, req.bucket, req.key);
    AfterPutMeta(sc, s.kv, req, st, cs, Count(req.data, cs) + 2, sc.metaKey(req.bucket, req.key));
    assert ReadsBack(sc, NewMeta(req, st, cs));
  }

  ghost predicate InUseAfter(sc: Schema, cs: nat, steps: seq<Step>, req: Request, st: Stamp)
    requires cs > 0
  {
    && Valid(sc, cs, steps)
    && Uses(sc, Run(sc, cs, steps).kv, req.bucket, req.key, st.id)
    && !AlwaysAtomic(sc, Run(sc, cs, steps).kv, req, st, cs)
  }

  lemma FirstPutInUse(sc: Schema, cs: nat, req: Request, value: string, ms: nat, now: nat, etag: string)
    requires Good(sc) && cs > 0 && req.bucket != "" && req.key != "" && ms > 0 && Count(req.data, cs) > 0
    requires Plain(NewMeta(req, Stamp(ObjectId(req.bucket, req.key, ms), now, etag), cs))
    ensures InUseAfter(sc, cs, FirstPut(cs, req, value, ms, now, etag), req, Stamp(ObjectId(req.bucket, req.key, ms), now, etag))
  {
    var steps, st := FirstPut(cs, req, value, ms, now, etag), Stamp(ObjectId(req.bucket, req.key, ms), now, etag);
    FirstPutRun(sc, cs, req, value, ms, now, etag);
    RunComplete(sc, cs, steps);
    assert Uses(sc, Run(sc, cs, steps).kv, req.bucket, req.key, st.id);
    AtomicIff(sc, Run(sc, cs, steps).kv, req, st, cs);
  }

  /** A second put in the same millisecond gets an id in use, and then overwriting is not atomic for all data. */
  lemma SameMillisecondNotAtomic(cs: nat, req: Request, value: string, ms: nat, now: nat, etag: string)
    requires cs > 0 && req.bucket != "" && req.key != "" && ms > 0 && Count(req.data, cs) > 0
    requires Plain(NewMeta(req, Stamp(ObjectId(req.bucket, req.key, ms), now, etag), cs))
    ensures InUseAfter(Encoding(), cs, FirstPut(cs, req, value, ms, now, etag), req, Stamp(ObjectId(req.bucket, req.key, ms), now, etag))
  {
    EncodingGood(Encoding());
    FirstPutInUse(Encoding(), cs, req, value, ms, now, etag);
  }

  lemma RunComplete(sc: Schema, cs: nat, steps: seq<Step>)
    requires Good(sc) && cs > 0 && Valid(sc, cs, steps)
    ensures Complete(sc, Run(sc, cs, steps).kv)
  {
    RunInv(sc, cs, steps);
    forall bucket, key ensures NoHoles(sc, Run(sc, cs, steps).kv, bucket, key) {
      NoTear(sc, Run(sc, cs, steps), bucket, key);
    }
  }

  /** Collection, complete or stopped, changes no answer; complete, it leaves only chunks of committed objects. */
  lemma CollectionExact(cs: nat, steps: seq<Step>, gone: set<string>)
    requires cs > 0 && Valid(Encoding(), cs, steps)
    requires forall k :: k in gone ==> IsGarbage(Encoding(), Run(Encoding(), cs, steps).kv, k)
    ensures var kv := Run(Encoding(), cs, steps).kv;
      && (forall bucket, key :: GetObject(Encoding(), kv - gone, bucket, key) == GetObject(Encoding(), kv, bucket, key))
      && ((forall k :: IsGarbage(Encoding(), kv, k) ==> k in gone) ==>
            forall k :: k in kv - gone && IsChunk(k) ==>
              Owner(k).Some? && exists bucket, key :: CommittedAt(Encoding(), kv - gone, bucket, key, Owner(k).value))
  {
    var kv := Run(Encoding(), cs, steps).kv;
    EncodingGood(Encoding());
    RunInv(Encoding(), cs, steps);
    CollectionOf(Encoding(), Run(Encoding(), cs, steps), gone);
    if forall k :: IsGarbage(Encoding(), kv, k) ==> k in gone {
      forall k | k in kv - gone && IsChunk(k)
        ensures Owner(k).Some? && exists bucket, key :: CommittedAt(Encoding(), kv - gone, bucket, key, Owner(k).value)
      {
        ChunksNamed(cs, steps, k);
        var meta :| CommittedAs(Encoding(), kv - gone, meta, Owner(k).value);
        RunNamed(Encoding(), cs, steps, meta);
        var bucket, key :| meta == Encoding().metaKey(bucket, key);
        assert CommittedAt(Encoding(), kv - gone, bucket, key, Owner(k).value);
      }
    }
  }

  lemma CollectionOf(sc: Schema, s: Store, gone: set<string>)
    requires Good(sc) && Inv(sc, s) && forall k :: k in gone ==> IsGarbage(sc, s.kv, k)
    ensures forall bucket, key :: GetObject(sc, s.kv - gone, bucket, key) == GetObject(sc, s.kv, bucket, key)
    ensures (forall k :: IsGarbage(sc, s.kv, k) ==> k in gone) ==>
      forall k :: k in s.kv - gone && sc.owner(k).Some? ==> exists meta :: CommittedAs(sc, s.kv - gone, meta, sc.owner(k).value)
  {
    forall bucket, key ensures GetObject(sc, s.kv - gone, bucket, key) == GetObject(sc, s.kv, bucket, key) {
      assert KindsApart(sc, bucket, key) && EntryOk(sc, s.kv, s.clock, sc.metaKey(bucket, key));
      SweepKeeps(sc, s.kv, gone, bucket, key);
    }
    if forall k :: IsGarbage(sc, s.kv, k) ==> k in gone {
      forall k | k in s.kv - gone && sc.owner(k).Some? ensures exists meta :: CommittedAs(sc, s.kv - gone, meta, sc.owner(k).value) {
        SweepComplete(sc, s.kv, gone, k);
      }
    }
  }
}
