/** Chunked objects over a key-value map (src/object_store.cpp), for any key and metadata encoding that keeps things apart. */
module ObjectModel {
  import opened Options
  import opened ObjectKeys

  type KV = map<string, string>

  /** Where things are kept and how metadata is written. */
  datatype Schema = Schema(
    bucketKey: string -> string,
    metaKey: (string, string) -> string,
    indexKey: (string, string) -> string,
    chunkKey: (string, nat) -> string,
    isMeta: string -> bool,
    owner: string -> Option<string>,
    read: string -> Option<Metadata>,
    write: Metadata -> string)

  // ---- what is asked of an encoding ----

  predicate ChunksApart(sc: Schema, id: string, i: nat, id': string, j: nat) {
    sc.chunkKey(id, i) == sc.chunkKey(id', j) ==> id == id' && i == j
  }

  predicate KindsApart(sc: Schema, bucket: string, key: string) {
    && sc.isMeta(sc.metaKey(bucket, key)) && !sc.isMeta(sc.indexKey(bucket, key)) && !sc.isMeta(sc.bucketKey(bucket))
    && sc.owner(sc.indexKey(bucket, key)) == None && sc.owner(sc.bucketKey(bucket)) == None
  }

  predicate ChunkApart(sc: Schema, id: string, i: nat, bucket: string, key: string) {
    && !sc.isMeta(sc.chunkKey(id, i))
    && sc.indexKey(bucket, key) != sc.chunkKey(id, i) && sc.bucketKey(bucket) != sc.chunkKey(id, i)
    && sc.owner(sc.chunkKey(id, i)) == if id == "" then None else Some(id)
  }

  predicate MetaUnowned(sc: Schema, k: string) {
    sc.isMeta(k) ==> sc.owner(k) == None
  }

  predicate ReadsBack(sc: Schema, m: Metadata) {
    Plain(m) ==> sc.read(sc.write(m)) == Some(m)
  }

  ghost predicate Good(sc: Schema) {
    && (forall id, i, id', j :: ChunksApart(sc, id, i, id', j))
    && (forall bucket, key :: KindsApart(sc, bucket, key))
    && (forall id, i, bucket, key :: ChunkApart(sc, id, i, bucket, key))
    && (forall k :: MetaUnowned(sc, k))
    && (forall m :: ReadsBack(sc, m))
  }

  // ---- reading ----

  datatype Gathered = Data(bytes: string) | Missing(index: nat)

  /** The first n chunks, in order. */
  function Chunks(sc: Schema, kv: KV, id: string, n: nat): Gathered {
    if n == 0 then Data("")
    else
      match Chunks(sc, kv, id, n - 1)
      case Missing(i) => Missing(i)
      case Data(d) => if sc.chunkKey(id, n - 1) in kv then Data(d + kv[sc.chunkKey(id, n - 1)]) else Missing(n - 1)
  }

  datatype Answer = NoMetadata | BadMetadata | IsDeleted | MissingChunk(index: nat) | Found(meta: Metadata, data: string)

  function Fetch(sc: Schema, kv: KV, m: Metadata): Answer {
    if m.state == DELETED then IsDeleted
    else
      match Chunks(sc, kv, m.objectId, m.chunkCount)
      case Missing(i) => MissingChunk(i)
      case Data(d) => Found(m, d)
  }

  function MetaAt(sc: Schema, kv: KV, bucket: string, key: string): Option<Metadata> {
    if sc.metaKey(bucket, key) in kv then sc.read(kv[sc.metaKey(bucket, key)]) else None
  }

  function GetObject(sc: Schema, kv: KV, bucket: string, key: string): Answer {
    if sc.metaKey(bucket, key) !in kv then NoMetadata
    else
      match MetaAt(sc, kv, bucket, key)
      case None => BadMetadata
      case Some(m) => Fetch(sc, kv, m)
  }

  // ---- writing ----

  datatype Request = Request(bucket: string, key: string, data: string, contentType: string)

  /** What the clock and the hash gave: object id, time and etag. */
  datatype Stamp = Stamp(id: string, now: nat, etag: string)

  function AllChunks(data: string, cs: nat): nat
    requires cs > 0
  {
    (|data| + cs - 1) / cs
  }

  /** The number of chunks is kept in 32 bits. */
  function Count(data: string, cs: nat): (n: nat)
    requires cs > 0
    ensures n < WIDTH32
  {
    AllChunks(data, cs) % WIDTH32
  }

  function Least(a: nat, b: nat): nat {
    if a < b then a else b
  }

  /** Where chunk i starts. */
  function StartOf(data: string, cs: nat, i: nat): (n: nat)
    ensures n <= |data|
  {
    Least(i * cs, |data|)
  }

  function Piece(data: string, cs: nat, i: nat): string {
    var start := StartOf(data, cs, i);
    data[start..Least(start + cs, |data|)]
  }

  function WithChunks(sc: Schema, kv: KV, id: string, data: string, cs: nat, n: nat): KV {
    if n == 0 then kv
    else WithChunks(sc, kv, id, data, cs, n - 1)[sc.chunkKey(id, n - 1) := Piece(data, cs, n - 1)]
  }

  function NewMeta(req: Request, st: Stamp, cs: nat): Metadata
    requires cs > 0
  {
    Metadata(st.id, req.bucket, req.key, |req.data|, Count(req.data, cs), cs, req.contentType, st.etag, st.now, st.now, COMMITTED)
  }

  predicate Refused(sc: Schema, kv: KV, req: Request) {
    req.bucket == "" || req.key == "" || sc.bucketKey(req.bucket) !in kv
  }

  /** The map after the first n writes of PutObject: chunks, then metadata, then the index entry. */
  function AfterPut(sc: Schema, kv: KV, req: Request, st: Stamp, cs: nat, n: nat): KV
    requires cs > 0
  {
    var count := Count(req.data, cs);
    if n <= count then WithChunks(sc, kv, st.id, req.data, cs, n)
    else
      var committed := WithChunks(sc, kv, st.id, req.data, cs, count)[sc.metaKey(req.bucket, req.key) := sc.write(NewMeta(req, st, cs))];
      if n == count + 1 then committed else committed[sc.indexKey(req.bucket, req.key) := st.id]
  }

  /** The map after the first n writes of DeleteObject. */
  function AfterDelete(sc: Schema, kv: KV, bucket: string, key: string, now: nat, n: nat): KV {
    match MetaAt(sc, kv, bucket, key)
    case None => kv
    case Some(m) =>
      if n == 0 then kv
      else
        var marked := kv[sc.metaKey(bucket, key) := sc.write(m.(state := DELETED, updated := now))];
        if n == 1 then marked else marked - {sc.indexKey(bucket, key)}
  }

  // ---- garbage ----

  function IdOf(sc: Schema, kv: KV, k: string): Option<string> {
    if k in kv && sc.isMeta(k) && sc.read(kv[k]).Some? && sc.read(kv[k]).value.state == COMMITTED
    then Some(sc.read(kv[k]).value.objectId) else None
  }

  /** Some committed metadata has this id. */
  ghost predicate Reachable(sc: Schema, kv: KV, id: string) {
    exists k :: IdOf(sc, kv, k) == Some(id)
  }

  /** The entry is metadata of this object id in state 1, committed. */
  predicate CommittedAs(sc: Schema, kv: KV, k: string, id: string) {
    k in kv && sc.isMeta(k) && sc.read(kv[k]).Some? && sc.read(kv[k]).value.state == 1 && sc.read(kv[k]).value.objectId == id
  }

  lemma ReachableIff(sc: Schema, kv: KV, id: string)
    ensures Reachable(sc, kv, id) <==> exists k :: CommittedAs(sc, kv, k, id)
  {
    if k :| IdOf(sc, kv, k) == Some(id) {
      assert CommittedAs(sc, kv, k, id);
    }
    if k :| CommittedAs(sc, kv, k, id) {
      assert IdOf(sc, kv, k) == Some(id);
    }
  }

  /** Chunks of ids without committed metadata. */
  ghost predicate IsGarbage(sc: Schema, kv: KV, k: string) {
    k in kv && sc.owner(k).Some? && !Reachable(sc, kv, sc.owner(k).value)
  }

  // ---- chunk arithmetic ----

  lemma {:induction false} TimesMonotone(a: nat, b: nat, cs: nat)
    requires a <= b
    ensures a * cs <= b * cs
    decreases b
  {
    if a < b {
      TimesMonotone(a, b - 1, cs);
      assert b * cs == (b - 1) * cs + cs;
    }
  }

  /** Whole chunks cover the data, one fewer does not. */
  lemma ChunksCover(data: string, cs: nat)
    requires cs > 0
    ensures var c := AllChunks(data, cs); |data| <= c * cs && (c > 0 ==> (c - 1) * cs < |data|)
  {
    var c, x := AllChunks(data, cs), |data| + cs - 1;
    assert x == cs * c + x % cs;
    assert cs * c == c * cs;
    if c > 0 {
      assert (c - 1) * cs == c * cs - cs;
    }
  }

  lemma PieceExtends(data: string, cs: nat, i: nat)
    ensures data[..StartOf(data, cs, i)] + Piece(data, cs, i) == data[..StartOf(data, cs, i + 1)]
  {
    assert (i + 1) * cs == i * cs + cs;
  }

  /** What is stored is all of the data exactly when the number of chunks fits in 32 bits. */
  lemma StoredAllIff(data: string, cs: nat)
    requires cs > 0
    ensures data[..StartOf(data, cs, Count(data, cs))] == data <==> AllChunks(data, cs) < WIDTH32
  {
    var c, n := AllChunks(data, cs), Count(data, cs);
    ChunksCover(data, cs);
    if c < WIDTH32 {
      assert n == c;
      assert data[..|data|] == data;
    } else {
      assert n < c;
      TimesMonotone(n, c - 1, cs);
      assert |data[..StartOf(data, cs, n)]| < |data|;
    }
  }
}
