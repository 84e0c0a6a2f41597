/** Exactly when an overwrite is atomic: the object id must not be in use. */
module ObjectClash {
  import opened ObjectKeys
  import opened ObjectModel
  import opened ObjectAtomic

  /** One object, with the overwrite stopped after n writes, answers as before or, if it is the one overwritten, as after. */
  predicate OldOrNew(sc: Schema, kv: KV, req: Request, st: Stamp, cs: nat, n: nat, bucket: string, key: string)
    requires cs > 0
  {
    var a := GetObject(sc, AfterPut(sc, kv, req, st, cs, n), bucket, key);
    || a == GetObject(sc, kv, bucket, key)
    || (sc.metaKey(bucket, key) == sc.metaKey(req.bucket, req.key) && a == Found(NewMeta(req, st, cs), req.data))
  }

  /** Requests whose metadata text and chunk count hold what they should. */
  predicate Storable(req: Request, st: Stamp, cs: nat)
    requires cs > 0
  {
    Plain(NewMeta(req, st, cs)) && AllChunks(req.data, cs) < WIDTH32
  }

  predicate AtomicAt(sc: Schema, kv: KV, req: Request, st: Stamp, cs: nat, n: nat, bucket: string, key: string)
    requires cs > 0
  {
    Storable(req, st, cs) ==> OldOrNew(sc, kv, req, st, cs, n, bucket, key)
  }

  /** An overwrite under an unused id is atomic, wherever it stops and for every object. */
  lemma FreshIsAtomic(sc: Schema, kv: KV, req: Request, st: Stamp, cs: nat, n: nat, bucket: string, key: string)
    requires Good(sc) && cs > 0 && Storable(req, st, cs) && !Uses(sc, kv, bucket, key, st.id)
    ensures OldOrNew(sc, kv, req, st, cs, n, bucket, key)
  {
    if n <= Count(req.data, cs) || sc.metaKey(bucket, key) != sc.metaKey(req.bucket, req.key) {
      PutKeeps(sc, kv, req, st, cs, n, bucket, key);
    } else {
      PutCommits(sc, kv, req, st, cs, n);
      StoredAllIff(req.data, cs);
    }
  }

  // ---- an id in use ----

  /** Replacing the first chunk replaces the first part of the data. */
  lemma {:induction false} FirstChunk(sc: Schema, kv: KV, id: string, n: nat, x: string) returns (rest: string)
    requires Good(sc) && n > 0 && Chunks(sc, kv, id, n).Data?
    ensures sc.chunkKey(id, 0) in kv
    ensures Chunks(sc, kv, id, n) == Data(kv[sc.chunkKey(id, 0)] + rest)
    ensures Chunks(sc, kv[sc.chunkKey(id, 0) := x], id, n) == Data(x + rest)
  {
    var kv' := kv[sc.chunkKey(id, 0) := x];
    if n == 1 {
      rest := "";
      assert Chunks(sc, kv, id, 0) == Data("") && Chunks(sc, kv', id, 0) == Data("");
      assert "" + x == x + "" && "" + kv[sc.chunkKey(id, 0)] == kv[sc.chunkKey(id, 0)] + "";
    } else {
      var r := FirstChunk(sc, kv, id, n - 1, x);
      assert ChunksApart(sc, id, 0, id, n - 1);
      var last := kv[sc.chunkKey(id, n - 1)];
      rest := r + last;
      assert (kv[sc.chunkKey(id, 0)] + r) + last == kv[sc.chunkKey(id, 0)] + rest;
      assert (x + r) + last == x + rest;
    }
  }

  function Fill(c: char, n: nat): (s: string)
    ensures |s| == n
  {
    seq(n, _ => c)
  }

  /** A string of the given length other than v. */
  function Unlike(v: string, n: nat): (s: string)
    requires n > 0
    ensures |s| == n && s != v && '\t' !in s
  {
    assert Fill('a', n)[0] == 'a' && Fill('b', n)[0] == 'b';
    if v == Fill('a', n) then Fill('b', n) else Fill('a', n)
  }

  /** Data of one full chunk and one more character. */
  lemma TwoChunks(x: string, y: string, cs: nat)
    requires |x| == cs > 0 && |y| == 1
    ensures AllChunks(x + y, cs) == 2 && Count(x + y, cs) == 2 && Piece(x + y, cs, 0) == x
  {
    assert (2 * cs) / cs == 2;
    assert |x + y| + cs - 1 == 2 * cs;
    assert StartOf(x + y, cs, 0) == 0;
  }

  lemma SuffixCancels(x: string, v: string, rest: string)
    requires x + rest == v + rest
    ensures x == v
  {
    assert |x| == |v|;
    assert x == (x + rest)[..|x|] && v == (v + rest)[..|v|];
  }

  lemma PrefixCancels(x: string, y: string, rest: string)
    requires x + rest == x + y
    ensures y == rest
  {
    assert y == (x + y)[|x|..] && rest == (x + rest)[|x|..];
  }

  /** Overwriting under an id in use shows, after one write, a mix of old and new bytes. */
  lemma UsedIsNotAtomic(sc: Schema, kv: KV, target: Request, st: Stamp, cs: nat, bucket: string, key: string) returns (data: string)
    requires Good(sc) && cs > 0 && Uses(sc, kv, bucket, key, st.id) && GetObject(sc, kv, bucket, key).Found?
    ensures AllChunks(data, cs) == 2
    ensures !OldOrNew(sc, kv, target.(data := data), st, cs, 1, bucket, key)
  {
    var m, c0 := MetaAt(sc, kv, bucket, key).value, sc.chunkKey(st.id, 0);
    assert KindsApart(sc, bucket, key) && ChunkApart(sc, st.id, 0, bucket, key);
    var rest := FirstChunk(sc, kv, st.id, m.chunkCount, "");
    var x := Unlike(kv[c0], cs);
    var y := if rest == "a" then "b" else "a";
    data := x + y;
    TwoChunks(x, y, cs);
    var req := target.(data := data);
    var kv' := kv[c0 := x];
    assert AfterPut(sc, kv, req, st, cs, 1) == kv' by {
      assert WithChunks(sc, kv, st.id, data, cs, 0) == kv;
    }
    MixedAnswer(sc, kv, st.id, bucket, key, x, rest);
    if x + rest == kv[c0] + rest { SuffixCancels(x, kv[c0], rest); }
    if x + rest == x + y { PrefixCancels(x, y, rest); }
  }

  lemma MixedAnswer(sc: Schema, kv: KV, id: string, bucket: string, key: string, x: string, rest: string)
    requires Good(sc) && Uses(sc, kv, bucket, key, id) && GetObject(sc, kv, bucket, key).Found?
    requires sc.chunkKey(id, 0) in kv && Chunks(sc, kv, id, MetaAt(sc, kv, bucket, key).value.chunkCount) == Data(kv[sc.chunkKey(id, 0)] + rest)
    ensures GetObject(sc, kv, bucket, key) == Found(MetaAt(sc, kv, bucket, key).value, kv[sc.chunkKey(id, 0)] + rest)
    ensures GetObject(sc, kv[sc.chunkKey(id, 0) := x], bucket, key) == Found(MetaAt(sc, kv, bucket, key).value, x + rest)
  {
    var m, c0 := MetaAt(sc, kv, bucket, key).value, sc.chunkKey(id, 0);
    assert KindsApart(sc, bucket, key) && ChunkApart(sc, id, 0, bucket, key);
    var r := FirstChunk(sc, kv, id, m.chunkCount, x);
    PrefixCancels(kv[c0], rest, r);
  }

  /** Every object is complete: what is not deleted has all its chunks. */
  ghost predicate Complete(sc: Schema, kv: KV) {
    forall bucket, key :: NoHoles(sc, kv, bucket, key)
  }

  predicate NoHoles(sc: Schema, kv: KV, bucket: string, key: string) {
    !GetObject(sc, kv, bucket, key).MissingChunk?
  }

  /** All overwrites of one object under one id are atomic for every object, wherever they stop. */
  ghost predicate AlwaysAtomic(sc: Schema, kv: KV, target: Request, st: Stamp, cs: nat)
    requires cs > 0
  {
    forall data, n, bucket, key :: AtomicAt(sc, kv, target.(data := data), st, cs, n, bucket, key)
  }

  /** Overwrites under an id are atomic, whatever the data, if and only if no live object with chunks has that id. */
  lemma AtomicIff(sc: Schema, kv: KV, target: Request, st: Stamp, cs: nat)
    requires Good(sc) && cs > 0 && Complete(sc, kv) && Plain(NewMeta(target, st, cs))
    ensures AlwaysAtomic(sc, kv, target, st, cs) <==> forall bucket, key :: !Uses(sc, kv, bucket, key, st.id)
  {
    if forall bucket, key :: !Uses(sc, kv, bucket, key, st.id) {
      forall data, n, bucket, key ensures AtomicAt(sc, kv, target.(data := data), st, cs, n, bucket, key) {
        if Storable(target.(data := data), st, cs) {
          FreshIsAtomic(sc, kv, target.(data := data), st, cs, n, bucket, key);
        }
      }
    } else {
      var bucket, key :| Uses(sc, kv, bucket, key, st.id);
      assert NoHoles(sc, kv, bucket, key);
      var data := UsedIsNotAtomic(sc, kv, target, st, cs, bucket, key);
      assert Storable(target.(data := data), st, cs);
      assert !AtomicAt(sc, kv, target.(data := data), st, cs, 1, bucket, key);
    }
  }
}
