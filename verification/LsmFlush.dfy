/** A flush of what the log refilled: when the table answers as the memtable did. */
module LsmFlush {
  import opened Options
  import opened Mvcc
  import opened TableNames
  import opened LsmStore
  import opened LsmInvariant
  import opened LsmSafety

  /** A write that fills the memtable, the worker's whole round, and the read that drains it. */
  function Round(other: string, big: string, key: string, t: nat): seq<Step> {
    [Put(other, big, true)] + [WorkerTakes] + [WorkerWrites(true, None)] + [WorkerLists(true)] + [WorkerReports]
    + [BeginRead(key, t)] + [Poll] + [EndPoll]
  }

  lemma RunMore(vb: nat, ws: seq<Write>, steps: seq<Step>, step: Step, s: Store, s': Store)
    requires Run(vb, ws, steps) == s && Next(s, step) == s'
    ensures Run(vb, ws, steps + [step]) == s'
  {
    assert (steps + [step])[..|steps|] == steps;
  }

  function Reported(s: Store): Store {
    DoWorkerReports(DoWorkerLists(DoWorkerWrites(DoWorkerTakes(s), true, None), true))
  }

  ghost function Drained(s: Store, key: string, t: nat): Store {
    DoEndPoll(DoPoll(DoBeginRead(s, key, t)))
  }

  lemma WorkerRun(vb: nat, ws: seq<Write>, steps: seq<Step>, s: Store)
    requires Run(vb, ws, steps) == s
    ensures Run(vb, ws, steps + [WorkerTakes] + [WorkerWrites(true, None)] + [WorkerLists(true)] + [WorkerReports]) == Reported(s)
  {
    var s1 := DoWorkerTakes(s);
    RunMore(vb, ws, steps, WorkerTakes, s, s1);
    var more := steps + [WorkerTakes];
    RunMore(vb, ws, more, WorkerWrites(true, None), s1, DoWorkerWrites(s1, true, None));
    ListRun(vb, ws, more + [WorkerWrites(true, None)], DoWorkerWrites(s1, true, None));
  }

  lemma ListRun(vb: nat, ws: seq<Write>, steps: seq<Step>, s: Store)
    requires Run(vb, ws, steps) == s
    ensures Run(vb, ws, steps + [WorkerLists(true)] + [WorkerReports]) == DoWorkerReports(DoWorkerLists(s, true))
  {
    var s1 := DoWorkerLists(s, true);
    RunMore(vb, ws, steps, WorkerLists(true), s, s1);
    RunMore(vb, ws, steps + [WorkerLists(true)], WorkerReports, s1, DoWorkerReports(s1));
  }

  lemma DrainRun(vb: nat, ws: seq<Write>, steps: seq<Step>, s: Store, key: string, t: nat)
    requires Run(vb, ws, steps) == s
    ensures Run(vb, ws, steps + [BeginRead(key, t)] + [Poll] + [EndPoll]) == Drained(s, key, t)
  {
    var s1 := DoBeginRead(s, key, t);
    var s2 := DoPoll(s1);
    var more := steps + [BeginRead(key, t)];
    RunMore(vb, ws, steps, BeginRead(key, t), s, s1);
    RunMore(vb, ws, more, Poll, s1, s2);
    RunMore(vb, ws, more + [Poll], EndPoll, s2, DoEndPoll(s2));
  }

  lemma RoundRun(vb: nat, ws: seq<Write>, s: Store, other: string, big: string, key: string, t: nat)
    requires s == Next(Recovered(vb, ws), Put(other, big, true))
    ensures Run(vb, ws, Round(other, big, key, t)) == Drained(Reported(s), key, t)
  {
    var put := [Put(other, big, true)];
    RunMore(vb, ws, [], put[0], Recovered(vb, ws), s);
    assert [] + put == put;
    WorkerRun(vb, ws, put, s);
    DrainRun(vb, ws, put + [WorkerTakes] + [WorkerWrites(true, None)] + [WorkerLists(true)] + [WorkerReports], Reported(s), key, t);
  }

  lemma PutFills(s: Store, ws: seq<Write>, other: string, big: string)
    requires Refilled(s, ws) && |other| + |big| + TIMESTAMP_BYTES >= FLUSH_THRESHOLD
    ensures var s' := DoPut(s, other, big, true);
      Handed(s', Push(s.mem, other, Version(s.lastSeq + 1, Some(big)))) && s'.latest == s.latest[other := big]
  {
    assert other in Push(s.mem, other, Version(s.lastSeq + 1, Some(big)));
  }

  predicate SameBooks(s: Store, s': Store) {
    s'.latest == s.latest && s'.lastSeq == s.lastSeq && s'.versionBytes == s.versionBytes
  }

  /** The memtable stands in the task queue and nowhere else. */
  ghost predicate Handed(s: Store, e: Entries) {
    && s.mem == map[] && s.slot == Some(map[]) && s.tasks == [Task(FlushName(0), e)] && s.worker == Waiting
    && s.completions == [] && s.paths == [] && s.manifest == [] && s.phase == Ready && s.memBytes == 0
  }

  /** It stands in the only table. */
  ghost predicate InTable(s: Store, e: Entries) {
    && s.mem == map[] && s.memBytes == 0 && s.slot == None && s.completions == [] && s.phase == Reading
    && s.paths == [FlushName(0)] && FlushName(0) in s.files && s.files[FlushName(0)] == e
  }

  /** The worker has written it and reports. */
  ghost predicate Completed(s: Store, e: Entries) {
    && s.mem == map[] && s.memBytes == 0 && s.paths == [] && s.completions == [FlushName(0)] && s.phase == Ready
    && FlushName(0) in s.files && s.files[FlushName(0)] == e
  }

  lemma ReportedTable(s: Store, e: Entries)
    requires Handed(s, e)
    ensures Completed(Reported(s), e) && SameBooks(s, Reported(s))
  {
  }

  lemma DrainedTable(s: Store, e: Entries, key: string, t: nat)
    requires Completed(s, e)
    ensures var s' := Drained(s, key, t); InTable(s', e) && s'.query == Query(key, t) && SameBooks(s, s')
  {
  }

  lemma RoundFrom(vb: nat, ws: seq<Write>, s: Store, e: Entries, other: string, big: string, key: string, t: nat)
    requires s == Next(Recovered(vb, ws), Put(other, big, true)) && Handed(s, e)
    ensures var s' := Run(vb, ws, Round(other, big, key, t)); InTable(s', e) && s'.query == Query(key, t) && SameBooks(s, s')
  {
    RoundRun(vb, ws, s, other, big, key, t);
    ReportedTable(s, e);
    DrainedTable(Reported(s), e, key, t);
  }

  /** After the round the table alone answers for a key. */
  lemma RoundSees(vb: nat, ws: seq<Write>, other: string, big: string, key: string, t: nat)
    requires key != other && |other| + |big| + TIMESTAMP_BYTES >= FLUSH_THRESHOLD
    ensures var s := Run(vb, ws, Round(other, big, key, t));
      && s.phase == Reading && s.query == Query(key, t)
      && Sees(s, key, t) == NewestVersion(ws, key, t)
      && (if key in s.latest then Some(s.latest[key]) else None) == Expected(ws, key, Recovered(vb, ws).lastSeq)
  {
    var s := Recovered(vb, ws);
    var s1 := DoPut(s, other, big, true);
    var e := Push(s.mem, other, Version(s.lastSeq + 1, Some(big)));
    RecoveredRefilled(vb, ws);
    PutFills(s, ws, other, big);
    RoundFrom(vb, ws, s1, e, other, big, key, t);
    RoundReads(s, ws, Run(vb, ws, Round(other, big, key, t)), e, key, t);
  }

  lemma RoundReads(s: Store, ws: seq<Write>, s': Store, e: Entries, key: string, t: nat)
    requires Refilled(s, ws) && VersionsOf(e, key) == VersionsOf(s.mem, key)
    requires InTable(s', e)
    ensures Sees(s', key, t) == NewestVersion(ws, key, t)
    ensures (if key in s.latest then Some(s.latest[key]) else None) == Expected(ws, key, s.lastSeq)
  {
    assert HoldsAt(s.mem, ws, key);
    OneTable(s', FlushName(0), e, key, t);
    assert LatestAt(s.latest, ws, s.lastSeq, key);
  }

  lemma OneTable(s: Store, p: string, e: Entries, key: string, t: nat)
    requires s.mem == map[] && s.slot == None && s.paths == [p] && p in s.files && s.files[p] == e
    ensures Sees(s, key, t) == Best(VersionsOf(e, key), t)
  {
    assert [p][..0] == [];
    assert TablesSee(s.files, [], key, t) == None;
  }

  lemma OpenedSees(vb: nat, ws: seq<Write>, key: string, t: nat)
    ensures Sees(Recovered(vb, ws), key, t) == Latest(HistoryOf(ws, key), t)
  {
    RecoveredRefilled(vb, ws);
    assert HoldsAt(Recovered(vb, ws).mem, ws, key);
  }

  /** The read sees the same version before and after the round. */
  ghost predicate SameRead(vb: nat, ws: seq<Write>, other: string, big: string, key: string, t: nat) {
    Sees(Run(vb, ws, Round(other, big, key, t)), key, t) == Sees(Recovered(vb, ws), key, t)
  }

  lemma SameReadIff(vb: nat, ws: seq<Write>, other: string, big: string, key: string, t: nat)
    requires key != other && |other| + |big| + TIMESTAMP_BYTES >= FLUSH_THRESHOLD
    ensures SameRead(vb, ws, other, big, key, t) <==> Latest(HistoryOf(ws, key), t) == Best(HistoryOf(ws, key), t)
  {
    RoundSees(vb, ws, other, big, key, t);
    OpenedSees(vb, ws, key, t);
  }

  /**
   Reads of a key see the same versions before and after the refilled memtable is flushed, at all
   times, if and only if the key's versions on the log are settled.
   */
  lemma FlushKeepsReadsIff(vb: nat, ws: seq<Write>, other: string, big: string, key: string)
    requires key != other && |other| + |big| + TIMESTAMP_BYTES >= FLUSH_THRESHOLD
    ensures (forall t :: SameRead(vb, ws, other, big, key, t)) <==> Settled(HistoryOf(ws, key))
  {
    var vs := HistoryOf(ws, key);
    forall t: nat ensures SameRead(vb, ws, other, big, key, t) <==> Latest(vs, t) == Best(vs, t) {
      SameReadIff(vb, ws, other, big, key, t);
    }
    LatestIsBestAlwaysIff(vs);
    if Settled(vs) {
      forall t: nat ensures SameRead(vb, ws, other, big, key, t) {
        assert Latest(vs, t) == Best(vs, t);
      }
    } else {
      var t: nat :| Latest(vs, t) != Best(vs, t);
      assert !SameRead(vb, ws, other, big, key, t);
    }
  }
}
