/** The writes on which a store is opened after a crash, and when its two lookup rules agree on them. */
module WalSession {
  import opened Options
  import opened Mvcc
  import Compactor
  import opened Crc
  import opened WalRecords
  import opened Framing
  import opened WalReads
  import opened WalLog
  import opened WalSafety
  import opened WalRuns
  import opened WalFile
  import LsmStore
  import LsmInvariant
  import LsmSafety
  import LsmFlush

  lemma DistinctNumbered(ops: seq<Op>)
    requires Distinct(ops)
    ensures Numbered(WritesOf(ops))
  {
    var ws := WritesOf(ops);
    forall a, b | a in ws && b in ws && a.key == b.key && a.version.timestamp == b.version.timestamp ensures a == b {
      var i :| 0 <= i < |ws| && ws[i] == a;
      var j :| 0 <= j < |ws| && ws[j] == b;
      assert ops[i] in ops && ops[j] in ops;
    }
  }

  /** After any clean run and any crash, a number on the log stands for one version of a key. */
  lemma SessionNumbered(steps: seq<Step>, cut: nat)
    requires Clean(Format(), steps)
    requires var l := Run(Format(), steps).0; l.synced <= cut <= |l.file|
    ensures Numbered(WritesOf(Replay(Format(), Run(Format(), steps).0.file[..cut])))
  {
    var (l, h) := Run(Format(), steps);
    FormatGood(Format());
    RunInv(Format(), steps);
    RunDistinct(Format(), steps);
    FoundAmong(Format(), l, h, cut);
    DistinctNumbered(Replay(Format(), l.file[..cut]));
  }

  /**
   So in every session on what a crash left of a log, retries or not, a read sees the newest version
   exactly under the condition of the engine model.
   */
  lemma SessionReadIff(versionBytes: nat, wal: seq<Step>, cut: nat, steps: seq<LsmStore.Step>, key: string, t: nat)
    requires Clean(Format(), wal)
    requires var l := Run(Format(), wal).0; l.synced <= cut <= |l.file|
    ensures var s := LsmStore.Run(versionBytes, WritesOf(Replay(Format(), Run(Format(), wal).0.file[..cut])), steps);
      LsmSafety.Sees(s, key, t) == NewestVersion(s.hist, key, t) <==> LsmSafety.Exact(s, key, t)
  {
    SessionNumbered(wal, cut);
    LsmSafety.ReadExactIff(versionBytes, WritesOf(Replay(Format(), Run(Format(), wal).0.file[..cut])), steps, key, t);
  }

  // ---- settled logs ----

  lemma WritesRise(ops: seq<Op>, key: string)
    requires Ascends(ops)
    ensures Increasing(HistoryOf(WritesOf(ops), key)) && Numbered(WritesOf(ops))
  {
    HistoryIncreasing(WritesOf(ops), key);
    DistinctNumbered(ops);
  }

  lemma WrittenOps(ops: seq<Op>, w: Mvcc.Write)
    ensures w in WritesOf(ops) <==> exists op :: op in ops && WriteOf(op) == w
  {
    if w in WritesOf(ops) {
      var i :| 0 <= i < |ops| && WritesOf(ops)[i] == w;
      assert ops[i] in ops && WriteOf(ops[i]) == w;
    }
    if op :| op in ops && WriteOf(op) == w {
      var i :| 0 <= i < |ops| && ops[i] == op;
      assert WritesOf(ops)[i] == w;
    }
  }

  lemma SameVersions(a: seq<Op>, b: seq<Op>, key: string)
    requires SameMembers(a, b)
    ensures forall v :: v in HistoryOf(WritesOf(a), key) <==> v in HistoryOf(WritesOf(b), key)
  {
    HistoryFrom(WritesOf(a), key);
    HistoryFrom(WritesOf(b), key);
    forall v ensures Mvcc.Write(key, v) in WritesOf(a) <==> Mvcc.Write(key, v) in WritesOf(b) {
      WrittenOps(a, Mvcc.Write(key, v));
      WrittenOps(b, Mvcc.Write(key, v));
    }
  }

  lemma SameLatest(a: seq<Op>, b: seq<Op>, key: string, t: nat)
    requires Same(a, b)
    ensures Latest(HistoryOf(WritesOf(a), key), t) == Latest(HistoryOf(WritesOf(b), key), t)
  {
    if x :| Text(x) == key {
      assert SameAt(a, b, x, t);
      HistorySeen(a, x, t);
      HistorySeen(b, x, t);
    } else {
      UnknownKey(a, key);
      UnknownKey(b, key);
    }
  }

  /** A list that reads, and has the operations, of a rising one is settled. */
  lemma SameSettles(a: seq<Op>, b: seq<Op>, key: string)
    requires Same(a, b) && SameMembers(a, b) && Ascends(b)
    ensures Settled(HistoryOf(WritesOf(a), key))
  {
    var x, y := HistoryOf(WritesOf(a), key), HistoryOf(WritesOf(b), key);
    WritesRise(b, key);
    LsmInvariant.NumberedAgree(WritesOf(b), key);
    SameVersions(a, b, key);
    forall t: nat ensures Latest(x, t) == Best(x, t) {
      SameLatest(a, b, key, t);
      BestIsLatest(y, t);
      Compactor.SameBest(y, x, t);
    }
    LatestIsBestAlwaysIff(x);
  }

  /** Unless a crash has come upon repeated records of the buffer, the log is settled, retries and all. */
  lemma CalmSettles(steps: seq<Step>, cut: nat)
    requires Clean(Format(), steps) && Calm(Format(), steps + [Crash(cut)])
    requires var l := Run(Format(), steps).0; l.synced <= cut <= |l.file|
    ensures Settles(WritesOf(Replay(Format(), Run(Format(), steps).0.file[..cut])))
  {
    var (l, h) := Run(Format(), steps);
    assert (steps + [Crash(cut)])[..|steps|] == steps;
    FormatGood(Format());
    RunInv(Format(), steps);
    RunAscends(Format(), steps);
    var k := OneAttempt(Format(), l, h, cut);
    forall key ensures Settled(HistoryOf(WritesOf(Replay(Format(), l.file[..cut])), key)) {
      SameSettles(Replay(Format(), l.file[..cut]), All(h)[..k], key);
    }
  }

  // ---- a log that is not ----

  /** Two versions of a key, the older once more behind the newer. */
  lemma StaleWrites(a: Op, b: Op)
    requires a.key == b.key && a.number < b.number
    ensures var ws, key := WritesOf([a, b, a]), Text(a.key);
      && HistoryOf(ws, key) == [WriteOf(a).version, WriteOf(b).version, WriteOf(a).version]
      && Latest(HistoryOf(ws, key), b.number) == Some(WriteOf(a).version)
      && NewestVersion(ws, key, b.number) == Some(WriteOf(b).version)
  {
    var ws, key := WritesOf([a, b, a]), Text(a.key);
    assert ws[..2] == [WriteOf(a), WriteOf(b)] && ws[..2][..1] == [WriteOf(a)] && ws[..2][..1][..0] == [];
    var u, v := WriteOf(a).version, WriteOf(b).version;
    assert HistoryOf(ws[..2][..1], key) == [u];
    assert HistoryOf(ws[..2], key) == [u, v];
    var vs := [u, v, u];
    assert HistoryOf(ws, key) == vs;
    assert vs[..2] == [u, v] && [u, v][..1] == [u] && [u][..0] == [];
    assert Best([u], b.number) == Some(u);
    assert Best([u, v], b.number) == Some(v);
  }

  /**
   A clean run after which a store opened on the log answers a read of the newest version with an
   older value, until the memtable is flushed: then get_at gives the newest, and get still the older.
   */
  lemma StaleSession(versionBytes: nat, key: Bytes, x: Bytes, y: Bytes, other: string, big: string) returns (steps: seq<Step>)
    requires Fits(Put(1, key, x)) && Fits(Put(2, key, y)) && x != y
    requires other != Text(key) && |other| + |big| + LsmStore.TIMESTAMP_BYTES >= LsmStore.FLUSH_THRESHOLD
    ensures Clean(Format(), steps)
    ensures var ws := WritesOf(Replay(Format(), Run(Format(), steps).0.file));
      var s := LsmStore.Run(versionBytes, ws, LsmFlush.Round(other, big, Text(key), 2));
      && !Settles(ws)
      && LsmStore.Get(LsmStore.Recovered(versionBytes, ws), Text(key), 2) == Some(Text(x))
      && LsmStore.Get(s, Text(key), 2) == Some(Text(y)) && Lookup(s.latest, Text(key)) == Some(Text(x))
  {
    FormatGood(Format());
    steps := StaleRun(Format(), key, x, y);
    StaleStore(versionBytes, Put(1, key, x), Put(2, key, y), other, big);
  }

  lemma StaleStore(versionBytes: nat, a: Op, b: Op, other: string, big: string)
    requires a.Put? && b.Put? && a.key == b.key && a.number == 1 && b.number == 2
    requires other != Text(a.key) && |other| + |big| + LsmStore.TIMESTAMP_BYTES >= LsmStore.FLUSH_THRESHOLD
    ensures var ws, key := WritesOf([a, b, a]), Text(a.key);
      var s := LsmStore.Run(versionBytes, ws, LsmFlush.Round(other, big, key, 2));
      && !Settles(ws)
      && LsmStore.Get(LsmStore.Recovered(versionBytes, ws), key, 2) == Some(Text(a.value))
      && LsmStore.Get(s, key, 2) == Some(Text(b.value)) && Lookup(s.latest, key) == Some(Text(a.value))
  {
    var ws, key := WritesOf([a, b, a]), Text(a.key);
    var s := LsmStore.Run(versionBytes, ws, LsmFlush.Round(other, big, key, 2));
    StaleWrites(a, b);
    LatestIsBestAlwaysIff(HistoryOf(ws, key));
    RecoveredGet(versionBytes, ws, key, 2);
    NewestIsLatest(HistoryOf(ws, key), 2);
    LsmFlush.RoundSees(versionBytes, ws, other, big, key, 2);
    LsmSafety.GetAnswersSeen(s, key, 2);
    StaleLast(versionBytes, ws);
  }

  lemma StaleLast(versionBytes: nat, ws: seq<Mvcc.Write>)
    requires |ws| == 3 && ws[0].version.timestamp == 1 == ws[2].version.timestamp && ws[1].version.timestamp == 2
    ensures LsmStore.Recovered(versionBytes, ws).lastSeq == 2
  {
    assert ws[..2][..1] == [ws[0]] && ws[..2][1] == ws[1] && [ws[0]][..0] == [];
    assert LsmStore.Recovered(versionBytes, [ws[0]]).lastSeq == 1;
    assert LsmStore.Recovered(versionBytes, ws[..2]).lastSeq == 2;
  }
}
