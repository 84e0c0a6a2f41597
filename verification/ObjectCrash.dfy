/** Object operations over the log: what a crash at any byte leaves of a history of puts, deletes and collections. */
module ObjectCrash {
  import opened Options
  import opened ObjectKeys
  import opened ObjectModel
  import opened ObjectSafety

  /** One write to the key-value store; a deletion has no value. */
  datatype Entry = Entry(key: string, value: Option<string>)

  function Set(kv: KV, e: Entry): KV {
    if e.value.Some? then kv[e.key := e.value.value] else kv - {e.key}
  }

  function SetAll(kv: KV, es: seq<Entry>): KV {
    if es == [] then kv else Set(SetAll(kv, es[..|es| - 1]), es[|es| - 1])
  }

  /** An operation, complete or stopped half-way, and the order in which a collection removes its keys. */
  datatype Issued = Issued(step: Step, order: seq<string>)

  function ChunkEntries(sc: Schema, id: string, data: string, cs: nat, n: nat): (es: seq<Entry>)
    ensures |es| == n
  {
    if n == 0 then [] else ChunkEntries(sc, id, data, cs, n - 1) + [Entry(sc.chunkKey(id, n - 1), Some(Piece(data, cs, n - 1)))]
  }

  function PutEntries(sc: Schema, req: Request, st: Stamp, cs: nat): seq<Entry>
    requires cs > 0
  {
    ChunkEntries(sc, st.id, req.data, cs, Count(req.data, cs))
    + [Entry(sc.metaKey(req.bucket, req.key), Some(sc.write(NewMeta(req, st, cs))))]
    + [Entry(sc.indexKey(req.bucket, req.key), Some(st.id))]
  }

  /** A missing index entry is not deleted, so not logged. */
  function DeleteEntries(sc: Schema, kv: KV, bucket: string, key: string, now: nat): seq<Entry> {
    match MetaAt(sc, kv, bucket, key)
    case None => []
    case Some(m) =>
      var text := sc.write(m.(state := DELETED, updated := now));
      [Entry(sc.metaKey(bucket, key), Some(text))]
      + if sc.indexKey(bucket, key) in kv[sc.metaKey(bucket, key) := text] then [Entry(sc.indexKey(bucket, key), None)] else []
  }

  function Removals(order: seq<string>): (es: seq<Entry>)
    ensures |es| == |order|
  {
    if order == [] then [] else Removals(order[..|order| - 1]) + [Entry(order[|order| - 1], None)]
  }

  function First(es: seq<Entry>, m: nat): seq<Entry> {
    if m <= |es| then es[..m] else es
  }

  /** What the operation logs, up to where it stopped. */
  function EntriesOf(sc: Schema, cs: nat, s: Store, x: Issued): seq<Entry>
    requires cs > 0
  {
    match x.step
    case CreateBucket(bucket, value) =>
      if bucket == "" || sc.bucketKey(bucket) in s.kv then [] else [Entry(sc.bucketKey(bucket), Some(value))]
    case Put(req, ms, now, etag, n) => if Refused(sc, s.kv, req) then [] else First(PutEntries(sc, req, StampOf(x.step), cs), n)
    case Delete(bucket, key, now, n) => First(DeleteEntries(sc, s.kv, bucket, key, now), n)
    case Collect(gone) => Removals(x.order)
  }

  /** The operation stopped after m of its writes. */
  function Stopped(x: Issued, m: nat): Step {
    match x.step
    case CreateBucket(_, _) => x.step
    case Put(req, ms, now, etag, n) => Put(req, ms, now, etag, m)
    case Delete(bucket, key, now, n) => Delete(bucket, key, now, m)
    case Collect(gone) => if m <= |x.order| then Collect(set k | k in x.order[..m]) else x.step
  }

  /** The order names what a collection removes. */
  ghost predicate Ordered(x: Issued) {
    x.step.Collect? ==> forall k :: k in x.step.gone <==> k in x.order
  }

  // ---- the writes of one operation ----

  lemma {:induction false} ApplyConcat(kv: KV, a: seq<Entry>, b: seq<Entry>)
    ensures SetAll(kv, a + b) == SetAll(SetAll(kv, a), b)
  {
    if b == [] {
      assert a + b == a;
    } else {
      assert (a + b)[..|a + b| - 1] == a + b[..|b| - 1];
      ApplyConcat(kv, a, b[..|b| - 1]);
    }
  }

  lemma ApplyMore(kv: KV, es: seq<Entry>, e: Entry)
    ensures SetAll(kv, es + [e]) == Set(SetAll(kv, es), e)
  {
    assert (es + [e])[..|es|] == es;
  }

  lemma {:induction false} ApplyChunks(sc: Schema, kv: KV, id: string, data: string, cs: nat, n: nat)
    ensures SetAll(kv, ChunkEntries(sc, id, data, cs, n)) == WithChunks(sc, kv, id, data, cs, n)
  {
    if n > 0 {
      ApplyChunks(sc, kv, id, data, cs, n - 1);
      ApplyMore(kv, ChunkEntries(sc, id, data, cs, n - 1), Entry(sc.chunkKey(id, n - 1), Some(Piece(data, cs, n - 1))));
    }
  }

  lemma {:induction false} ChunkEntriesCut(sc: Schema, id: string, data: string, cs: nat, n: nat, m: nat)
    requires m <= n
    ensures ChunkEntries(sc, id, data, cs, n)[..m] == ChunkEntries(sc, id, data, cs, m)
  {
    if m < n {
      ChunkEntriesCut(sc, id, data, cs, n - 1, m);
      assert ChunkEntries(sc, id, data, cs, n)[..m] == ChunkEntries(sc, id, data, cs, n - 1)[..m];
    } else {
      assert ChunkEntries(sc, id, data, cs, n)[..n] == ChunkEntries(sc, id, data, cs, n);
    }
  }

  lemma PutCut(sc: Schema, kv: KV, req: Request, st: Stamp, cs: nat, m: nat)
    requires cs > 0
    ensures SetAll(kv, First(PutEntries(sc, req, st, cs), m)) == AfterPut(sc, kv, req, st, cs, m)
  {
    var count := Count(req.data, cs);
    var chunks := ChunkEntries(sc, st.id, req.data, cs, count);
    var meta, index := Entry(sc.metaKey(req.bucket, req.key), Some(sc.write(NewMeta(req, st, cs)))), Entry(sc.indexKey(req.bucket, req.key), Some(st.id));
    var all := PutEntries(sc, req, st, cs);
    assert all == chunks + [meta] + [index];
    if m <= count {
      ChunkEntriesCut(sc, st.id, req.data, cs, count, m);
      assert all[..m] == chunks[..m];
      ApplyChunks(sc, kv, st.id, req.data, cs, m);
    } else {
      ApplyChunks(sc, kv, st.id, req.data, cs, count);
      ApplyMore(kv, chunks, meta);
      ApplyMore(kv, chunks + [meta], index);
      assert m == count + 1 ==> all[..m] == chunks + [meta];
      assert m >= count + 2 ==> First(all, m) == all;
    }
  }

  lemma DeleteCut(sc: Schema, kv: KV, bucket: string, key: string, now: nat, m: nat)
    ensures SetAll(kv, First(DeleteEntries(sc, kv, bucket, key, now), m)) == AfterDelete(sc, kv, bucket, key, now, m)
  {
    var all := DeleteEntries(sc, kv, bucket, key, now);
    var x := MetaAt(sc, kv, bucket, key);
    assert all[..0] == [];
    if x.Some? {
      var e := all[0];
      ApplyMore(kv, [], e);
      assert [] + [e] == [e];
      if m == 1 || |all| == 1 {
        assert all[..1] == [e] && (|all| == 1 ==> all == [e]);
      } else if m >= 2 {
        ApplyMore(kv, [e], all[1]);
        assert First(all, m) == [e] + [all[1]];
      }
    }
  }

  lemma {:induction false} ApplyRemovals(kv: KV, order: seq<string>, gone: set<string>)
    requires forall k :: k in gone <==> k in order
    ensures SetAll(kv, Removals(order)) == kv - gone
  {
    if order == [] {
      assert gone == {};
      assert kv - {} == kv;
    } else {
      var front, last := order[..|order| - 1], order[|order| - 1];
      assert order == front + [last];
      var before := set k | k in front;
      ApplyRemovals(kv, front, before);
      ApplyMore(kv, Removals(front), Entry(last, None));
      assert (kv - before) - {last} == kv - gone;
    }
  }

  lemma {:induction false} RemovalsCut(order: seq<string>, m: nat)
    requires m <= |order|
    ensures Removals(order)[..m] == Removals(order[..m])
  {
    if m < |order| {
      RemovalsCut(order[..|order| - 1], m);
      assert order[..|order| - 1][..m] == order[..m];
    } else {
      assert order[..m] == order && Removals(order)[..m] == Removals(order);
    }
  }

  /** Stopping an operation after m writes leaves exactly its first m writes. */
  lemma StepCut(sc: Schema, cs: nat, s: Store, x: Issued, m: nat)
    requires cs > 0 && 0 < m <= |EntriesOf(sc, cs, s, x)|
    ensures Next(sc, cs, s, Stopped(x, m)).kv == SetAll(s.kv, EntriesOf(sc, cs, s, x)[..m])
  {
    match x.step
    case CreateBucket(bucket, value) =>
      var e := Entry(sc.bucketKey(bucket), Some(value));
      ApplyMore(s.kv, [], e);
      assert [] + [e] == [e] && [e][..1] == [e];
    case Put(req, ms, now, etag, n) =>
      assert First(PutEntries(sc, req, StampOf(x.step), cs), n)[..m] == First(PutEntries(sc, req, StampOf(x.step), cs), m);
      PutCut(sc, s.kv, req, StampOf(x.step), cs, m);
    case Delete(bucket, key, now, n) =>
      assert First(DeleteEntries(sc, s.kv, bucket, key, now), n)[..m] == First(DeleteEntries(sc, s.kv, bucket, key, now), m);
      DeleteCut(sc, s.kv, bucket, key, now, m);
    case Collect(gone) =>
      RemovalsCut(x.order, m);
      ApplyRemovals(s.kv, x.order[..m], set k | k in x.order[..m]);
  }

  /** An operation leaves exactly its logged writes. */
  lemma StepFull(sc: Schema, cs: nat, s: Store, x: Issued)
    requires cs > 0 && Ordered(x)
    ensures Next(sc, cs, s, x.step).kv == SetAll(s.kv, EntriesOf(sc, cs, s, x))
  {
    match x.step
    case CreateBucket(bucket, value) =>
      var es := EntriesOf(sc, cs, s, x);
      assert es[..|es|] == es;
      if es != [] { StepCut(sc, cs, s, x, 1); }
    case Put(req, ms, now, etag, n) => PutCut(sc, s.kv, req, StampOf(x.step), cs, n);
    case Delete(bucket, key, now, n) => DeleteCut(sc, s.kv, bucket, key, now, n);
    case Collect(gone) => ApplyRemovals(s.kv, x.order, gone);
  }

  lemma StoppedPossible(sc: Schema, cs: nat, s: Store, x: Issued, m: nat)
    requires cs > 0 && Possible(sc, cs, s, x.step) && Ordered(x)
    ensures Possible(sc, cs, s, Stopped(x, m))
  {
  }

  // ---- the writes of a history ----

  function StepsOf(xs: seq<Issued>): (steps: seq<Step>)
    ensures |steps| == |xs|
  {
    if xs == [] then [] else StepsOf(xs[..|xs| - 1]) + [xs[|xs| - 1].step]
  }

  function AllEntries(sc: Schema, cs: nat, xs: seq<Issued>): seq<Entry>
    requires cs > 0
  {
    if xs == [] then []
    else
      var front := xs[..|xs| - 1];
      AllEntries(sc, cs, front) + EntriesOf(sc, cs, Run(sc, cs, StepsOf(front)), xs[|xs| - 1])
  }

  ghost predicate AllOrdered(xs: seq<Issued>) {
    forall i :: 0 <= i < |xs| ==> Ordered(xs[i])
  }

  lemma RunOne(sc: Schema, cs: nat, steps: seq<Step>, step: Step)
    requires cs > 0
    ensures Run(sc, cs, steps + [step]) == Next(sc, cs, Run(sc, cs, steps), step)
    ensures Valid(sc, cs, steps + [step]) <==> Valid(sc, cs, steps) && Possible(sc, cs, Run(sc, cs, steps), step)
  {
    assert (steps + [step])[..|steps|] == steps;
  }

  lemma {:induction false} RunApplies(sc: Schema, cs: nat, xs: seq<Issued>)
    requires cs > 0 && AllOrdered(xs)
    ensures Run(sc, cs, StepsOf(xs)).kv == SetAll(map[], AllEntries(sc, cs, xs))
  {
    if xs != [] {
      var front, x := xs[..|xs| - 1], xs[|xs| - 1];
      var s := Run(sc, cs, StepsOf(front));
      RunApplies(sc, cs, front);
      RunOne(sc, cs, StepsOf(front), x.step);
      StepFull(sc, cs, s, x);
      ApplyConcat(map[], AllEntries(sc, cs, front), EntriesOf(sc, cs, s, x));
    }
  }

  /** The first i operations, and possibly the next one stopped half-way. */
  ghost predicate CutOf(xs: seq<Issued>, steps: seq<Step>, i: nat) {
    i <= |xs| && (steps == StepsOf(xs[..i]) || (i < |xs| && exists m: nat :: steps == StepsOf(xs[..i]) + [Stopped(xs[i], m)]))
  }

  /** The history that k of the logged writes stand for. */
  ghost predicate IsCut(sc: Schema, cs: nat, xs: seq<Issued>, es: seq<Entry>, k: nat, steps: seq<Step>, i: nat)
    requires cs > 0 && k <= |es|
  {
    Valid(sc, cs, steps) && CutOf(xs, steps, i) && Run(sc, cs, steps).kv == SetAll(map[], es[..k])
  }

  /** How many writes the first n operations log. */
  function Logged(sc: Schema, cs: nat, xs: seq<Issued>, n: nat): nat
    requires cs > 0 && n <= |xs|
  {
    |AllEntries(sc, cs, xs[..n])|
  }

  /** The operation after the first i, if there is one, is not complete. */
  predicate Reaches(sc: Schema, cs: nat, xs: seq<Issued>, k: nat, i: nat)
    requires cs > 0
  {
    i < |xs| ==> k < Logged(sc, cs, xs, i + 1)
  }

  lemma WholeCut(sc: Schema, cs: nat, xs: seq<Issued>)
    requires cs > 0 && AllOrdered(xs) && Valid(sc, cs, StepsOf(xs))
    ensures IsCut(sc, cs, xs, AllEntries(sc, cs, xs), |AllEntries(sc, cs, xs)|, StepsOf(xs), |xs|)
  {
    var all := AllEntries(sc, cs, xs);
    assert xs[..|xs|] == xs && all[..|all|] == all;
    RunApplies(sc, cs, xs);
  }

  lemma FrontEntries(sc: Schema, cs: nat, xs: seq<Issued>, k: nat)
    requires cs > 0 && xs != [] && k < |AllEntries(sc, cs, xs[..|xs| - 1])|
    ensures k < |AllEntries(sc, cs, xs)| && AllEntries(sc, cs, xs)[..k] == AllEntries(sc, cs, xs[..|xs| - 1])[..k]
  {
  }

  lemma FrontBound(sc: Schema, cs: nat, xs: seq<Issued>, k: nat, i: nat)
    requires cs > 0 && xs != [] && k < |AllEntries(sc, cs, xs)| && Reaches(sc, cs, xs[..|xs| - 1], k, i)
    ensures Reaches(sc, cs, xs, k, i)
  {
    if i < |xs| - 1 {
      assert xs[..|xs| - 1][..i + 1] == xs[..i + 1];
    } else if i < |xs| {
      assert xs[..i + 1] == xs;
    }
  }

  lemma FrontCut(sc: Schema, cs: nat, xs: seq<Issued>, n: nat, before: seq<Entry>, all: seq<Entry>, k: nat, steps: seq<Step>, i: nat)
    requires cs > 0 && n <= |xs| && k <= |before| && k <= |all| && before[..k] == all[..k]
    requires IsCut(sc, cs, xs[..n], before, k, steps, i)
    ensures IsCut(sc, cs, xs, all, k, steps, i)
  {
    CutOfFront(xs, n, steps, i);
  }

  lemma LateHistory(sc: Schema, cs: nat, xs: seq<Issued>, k: nat) returns (steps: seq<Step>)
    requires cs > 0 && xs != [] && AllOrdered(xs) && Valid(sc, cs, StepsOf(xs))
    requires |AllEntries(sc, cs, xs[..|xs| - 1])| <= k < |AllEntries(sc, cs, xs)|
    ensures IsCut(sc, cs, xs, AllEntries(sc, cs, xs), k, steps, |xs| - 1) && Reaches(sc, cs, xs, k, |xs| - 1)
  {
    var n := |xs| - 1;
    RunOne(sc, cs, StepsOf(xs[..n]), xs[n].step);
    steps := LastCut(sc, cs, xs[..n], xs[n], k);
    assert xs[..n + 1] == xs;
    LastCutIs(xs, n, steps);
  }

  /** Any number of the logged writes is a history whose last operation may have stopped half-way. */
  lemma {:induction false} CutHistory(sc: Schema, cs: nat, xs: seq<Issued>, k: nat) returns (steps: seq<Step>, i: nat)
    requires cs > 0 && AllOrdered(xs) && Valid(sc, cs, StepsOf(xs)) && k <= |AllEntries(sc, cs, xs)|
    ensures IsCut(sc, cs, xs, AllEntries(sc, cs, xs), k, steps, i) && Reaches(sc, cs, xs, k, i)
    decreases |xs|
  {
    if k == |AllEntries(sc, cs, xs)| {
      steps, i := StepsOf(xs), |xs|;
      WholeCut(sc, cs, xs);
    } else if k < |AllEntries(sc, cs, xs[..|xs| - 1])| {
      ValidFront(sc, cs, xs);
      steps, i := CutHistory(sc, cs, xs[..|xs| - 1], k);
      FrontHistory(sc, cs, xs, k, steps, i);
    } else {
      steps := LateHistory(sc, cs, xs, k);
      i := |xs| - 1;
    }
  }

  lemma ValidFront(sc: Schema, cs: nat, xs: seq<Issued>)
    requires cs > 0 && xs != [] && AllOrdered(xs) && Valid(sc, cs, StepsOf(xs))
    ensures Valid(sc, cs, StepsOf(xs[..|xs| - 1])) && AllOrdered(xs[..|xs| - 1])
  {
    RunOne(sc, cs, StepsOf(xs[..|xs| - 1]), xs[|xs| - 1].step);
  }

  lemma FrontHistory(sc: Schema, cs: nat, xs: seq<Issued>, k: nat, steps: seq<Step>, i: nat)
    requires cs > 0 && xs != [] && k < |AllEntries(sc, cs, xs[..|xs| - 1])| && Reaches(sc, cs, xs[..|xs| - 1], k, i)
    requires IsCut(sc, cs, xs[..|xs| - 1], AllEntries(sc, cs, xs[..|xs| - 1]), k, steps, i)
    ensures k < |AllEntries(sc, cs, xs)| && IsCut(sc, cs, xs, AllEntries(sc, cs, xs), k, steps, i) && Reaches(sc, cs, xs, k, i)
  {
    FrontEntries(sc, cs, xs, k);
    FrontCut(sc, cs, xs, |xs| - 1, AllEntries(sc, cs, xs[..|xs| - 1]), AllEntries(sc, cs, xs), k, steps, i);
    FrontBound(sc, cs, xs, k, i);
  }

  lemma CutOfFront(xs: seq<Issued>, n: nat, steps: seq<Step>, i: nat)
    requires n <= |xs| && CutOf(xs[..n], steps, i)
    ensures CutOf(xs, steps, i)
  {
    assert xs[..n][..i] == xs[..i];
    if i < n && steps != StepsOf(xs[..i]) {
      var m: nat :| steps == StepsOf(xs[..n][..i]) + [Stopped(xs[..n][i], m)];
      assert steps == StepsOf(xs[..i]) + [Stopped(xs[i], m)];
    }
  }

  ghost predicate IsLastCut(front: seq<Issued>, x: Issued, steps: seq<Step>) {
    steps == StepsOf(front) || exists m: nat :: steps == StepsOf(front) + [Stopped(x, m)]
  }

  lemma LastCutIs(xs: seq<Issued>, n: nat, steps: seq<Step>)
    requires n < |xs| && IsLastCut(xs[..n], xs[n], steps)
    ensures CutOf(xs, steps, n)
  {
  }

  /** A cut within the writes of the last operation. */
  lemma LastCut(sc: Schema, cs: nat, front: seq<Issued>, x: Issued, k: nat) returns (steps: seq<Step>)
    requires cs > 0 && AllOrdered(front) && Ordered(x)
    requires Valid(sc, cs, StepsOf(front)) && Possible(sc, cs, Run(sc, cs, StepsOf(front)), x.step)
    requires var before := AllEntries(sc, cs, front); var es := EntriesOf(sc, cs, Run(sc, cs, StepsOf(front)), x);
      |before| <= k <= |before + es|
    ensures Valid(sc, cs, steps) && IsLastCut(front, x, steps)
    ensures var all := AllEntries(sc, cs, front) + EntriesOf(sc, cs, Run(sc, cs, StepsOf(front)), x);
      Run(sc, cs, steps).kv == SetAll(map[], all[..k])
  {
    var s, before := Run(sc, cs, StepsOf(front)), AllEntries(sc, cs, front);
    var es := EntriesOf(sc, cs, s, x);
    var m := k - |before|;
    assert (before + es)[..k] == before + es[..m];
    RunApplies(sc, cs, front);
    ApplyConcat(map[], before, es[..m]);
    if m == 0 {
      steps := StepsOf(front);
      assert es[..0] == [];
    } else {
      steps := StepsOf(front) + [Stopped(x, m)];
      StepCut(sc, cs, s, x, m);
      StoppedPossible(sc, cs, s, x, m);
      RunOne(sc, cs, StepsOf(front), Stopped(x, m));
    }
  }
}
