/** A crash of the whole system at any byte of the log, seen through the object store. */
module ObjectRecovery {
  import opened Options
  import opened Crc
  import opened WalRecords
  import opened Framing
  import opened WalReads
  import opened WalFile
  import opened ObjectModel
  import opened ObjectCrash
  import Mvcc
  import LsmStore
  import WalLog
  import WalRetry
  import WalSafety
  import ObjectSafety

  /** The log record of a write. */
  predicate Logs(op: Op, e: Entry) {
    Text(op.key) == e.key && e.value == if op.Put? then Some(Text(op.value)) else None
  }

  ghost predicate LogOf(ops: seq<Op>, es: seq<Entry>) {
    |ops| == |es| && forall i :: 0 <= i < |ops| ==> Logs(ops[i], es[i])
  }

  /** Replaying the records of some writes leaves the map that the writes leave. */
  lemma {:induction false} LatestIsApply(ops: seq<Op>, es: seq<Entry>)
    requires LogOf(ops, es)
    ensures LatestOf(WritesOf(ops)) == SetAll(map[], es)
  {
    if ops != [] {
      var n := |ops| - 1;
      LatestIsApply(ops[..n], es[..n]);
      assert WritesOf(ops)[..n] == WritesOf(ops[..n]);
      assert Logs(ops[n], es[n]);
    }
  }

  lemma MapsEqual(a: map<string, string>, b: map<string, string>)
    requires forall key :: Lookup(a, key) == Lookup(b, key)
    ensures a == b
  {
    forall key ensures key in a <==> key in b {
      assert Lookup(a, key) == Lookup(b, key);
    }
    forall key | key in a ensures a[key] == b[key] {
      assert Lookup(a, key) == Lookup(b, key);
    }
  }

  lemma SameReads(a: seq<Op>, b: seq<Op>, key: string, t: nat)
    requires Same(a, b)
    ensures Mvcc.Expected(WritesOf(a), key, t) == Mvcc.Expected(WritesOf(b), key, t)
  {
    if x :| Text(x) == key {
      assert SameAt(a, b, x, t);
      StoreReads(a, x, t);
      StoreReads(b, x, t);
    } else {
      UnknownKey(a, key);
      UnknownKey(b, key);
    }
  }

  lemma SameMaps(a: seq<Op>, b: seq<Op>, t: nat)
    requires Same(a, b) && (forall op :: op in a ==> op.number <= t) && (forall op :: op in b ==> op.number <= t)
    ensures LatestOf(WritesOf(a)) == LatestOf(WritesOf(b))
  {
    forall key ensures Lookup(LatestOf(WritesOf(a)), key) == Lookup(LatestOf(WritesOf(b)), key) {
      LatestReads(WritesOf(a), key, t);
      LatestReads(WritesOf(b), key, t);
      SameReads(a, b, key, t);
    }
    MapsEqual(LatestOf(WritesOf(a)), LatestOf(WritesOf(b)));
  }

  /** The map a store opened on what the crash left begins with. */
  function RecoveredMap(versionBytes: nat, file: Bytes): KV {
    LsmStore.Recovered(versionBytes, WritesOf(Replay(WalSafety.Format(), file))).latest
  }

  /** The crash leaves no operation of the present buffer behind one that is lost. */
  ghost predicate NoGap(wal: seq<WalLog.Step>, cut: nat) {
    var (l, h) := WalSafety.Run(WalSafety.Format(), wal);
    cut <= |l.file| ==> WalRetry.Gapless(WalSafety.Beyond(h, Replay(WalSafety.Format(), l.file[..cut])), h.pending)
  }

  lemma RecoveredIsApply(versionBytes: nat, wal: seq<WalLog.Step>, cut: nat, es: seq<Entry>) returns (k: nat)
    requires WalSafety.Clean(WalSafety.Format(), wal)
    requires var (l, h) := WalSafety.Run(WalSafety.Format(), wal); l.synced <= cut <= |l.file| && LogOf(WalLog.All(h), es)
    requires NoGap(wal, cut)
    ensures var (l, h) := WalSafety.Run(WalSafety.Format(), wal);
      |h.acked| <= k <= |es| && RecoveredMap(versionBytes, l.file[..cut]) == SetAll(map[], es[..k])
  {
    var (l, h) := WalSafety.Run(WalSafety.Format(), wal);
    var found := Replay(WalSafety.Format(), l.file[..cut]);
    WalSafety.RecoversPrefixIff(wal, cut);
    k :| |h.acked| <= k <= |WalLog.All(h)| && Same(found, WalLog.All(h)[..k]);
    var kept := WalLog.All(h)[..k];
    FoundNumbers(wal, cut);
    WalSafety.NumbersRise(wal);
    forall op | op in kept ensures op.number <= h.last {
      assert op in WalLog.All(h);
    }
    SameMaps(found, kept, h.last);
    RecoveredLatestOf(versionBytes, WritesOf(found));
    LatestIsApply(kept, es[..k]);
  }

  lemma {:induction false} EntriesGrow(sc: Schema, cs: nat, xs: seq<Issued>, ys: seq<Issued>)
    requires cs > 0 && xs <= ys
    ensures |AllEntries(sc, cs, xs)| <= |AllEntries(sc, cs, ys)|
  {
    if xs != ys { EntriesGrow(sc, cs, xs, ys[..|ys| - 1]); }
  }

  lemma LoggedGrows(sc: Schema, cs: nat, xs: seq<Issued>, i: nat, j: nat)
    requires cs > 0 && i <= j <= |xs|
    ensures Logged(sc, cs, xs, i) <= Logged(sc, cs, xs, j)
  {
    EntriesGrow(sc, cs, xs[..i], xs[..j]);
  }

  /** Operations whose writes are all among the first k are complete. */
  lemma CompleteBefore(sc: Schema, cs: nat, xs: seq<Issued>, k: nat, i: nat, j: nat)
    requires cs > 0 && Reaches(sc, cs, xs, k, i) && j <= |xs| && Logged(sc, cs, xs, j) <= k
    ensures j <= i
  {
    if i < j { LoggedGrows(sc, cs, xs, i + 1, j); }
  }

  /**
   A history of object operations, any of them stopped half-way by an earlier crash, its writes logged
   in order, and a crash at any byte behind the synced part: the reopened store answers for every
   object as the history does up to some operation, possibly with that one stopped (further) half-way,
   and no operation whose writes were all flushed is missing.
   */
  lemma ObjectsRecover(versionBytes: nat, cs: nat, xs: seq<Issued>, wal: seq<WalLog.Step>, cut: nat) returns (steps: seq<ObjectSafety.Step>, i: nat)
    requires cs > 0 && AllOrdered(xs) && ObjectSafety.Valid(ObjectSafety.Encoding(), cs, StepsOf(xs))
    requires WalSafety.Clean(WalSafety.Format(), wal)
    requires var (l, h) := WalSafety.Run(WalSafety.Format(), wal);
      l.synced <= cut <= |l.file| && LogOf(WalLog.All(h), AllEntries(ObjectSafety.Encoding(), cs, xs))
    requires NoGap(wal, cut)
    ensures ObjectSafety.Valid(ObjectSafety.Encoding(), cs, steps) && CutOf(xs, steps, i)
    ensures var (l, h) := WalSafety.Run(WalSafety.Format(), wal);
      && (forall bucket, key ::
            GetObject(ObjectSafety.Encoding(), RecoveredMap(versionBytes, l.file[..cut]), bucket, key)
            == ObjectSafety.Expected(ObjectSafety.Encoding(), cs, steps, bucket, key))
      && (forall j :: 0 <= j <= |xs| && Logged(ObjectSafety.Encoding(), cs, xs, j) <= |h.acked| ==> j <= i)
  {
    var sc := ObjectSafety.Encoding();
    var es := AllEntries(sc, cs, xs);
    var (l, h) := WalSafety.Run(WalSafety.Format(), wal);
    var k := RecoveredIsApply(versionBytes, wal, cut, es);
    steps, i := CutHistory(sc, cs, xs, k);
    forall bucket, key
      ensures GetObject(sc, RecoveredMap(versionBytes, l.file[..cut]), bucket, key) == ObjectSafety.Expected(sc, cs, steps, bucket, key)
    {
      ObjectSafety.AnswersFollowHistory(cs, steps, bucket, key);
    }
    forall j | 0 <= j <= |xs| && Logged(sc, cs, xs, j) <= |h.acked| ensures j <= i {
      CompleteBefore(sc, cs, xs, k, i, j);
    }
  }
}
