/** A compaction that succeeds, and a flush that does not. */
module LsmCompaction {
  import opened Options
  import opened Mvcc
  import opened Compactor
  import opened TableNames
  import opened LsmStore
  import opened LsmInvariant
  import opened LsmSteps
  import opened LsmSafety
  import opened LsmFlush

  // ---- a whole compaction ----

  /** A drain has added a table, four or more are listed, and `out` is a compaction of the two oldest. */
  ghost predicate Due(s: Store, out: Entries) {
    && s.phase == Draining(true) && s.completions == [] && s.slot == None && |s.paths| >= 4 && s.paths[0] != s.paths[1]
    && s.paths[0] in s.files && s.paths[1] in s.files && IsCompaction(s.files[s.paths[0]], s.files[s.paths[1]], out)
  }

  /** The output has been published and the new list prepared. */
  ghost predicate Prepared(s: Store, t: Store, o: string, out: Entries)
    requires |s.paths| >= 2
  {
    && t.phase == Swapping(o) && t.paths == s.paths && t.manifestTmp == Some([o] + s.paths[2..]) && t.compactionFailed == s.compactionFailed
    && t.files == s.files[TmpName(o) := out][o := out] - {TmpName(o)}
  }

  lemma Publishes(s: Store, o: string, out: Entries)
    requires s.phase == Merging(o) && |s.paths| >= 2 && s.paths[0] in s.files && s.paths[1] in s.files
    requires IsCompaction(s.files[s.paths[0]], s.files[s.paths[1]], out)
    ensures Prepared(s, DoPrepare(DoPublish(DoMerge(s, out), true), true), o, out)
  {
  }

  lemma Installs(s: Store, o: string)
    requires s.phase == Swapping(o) && |s.paths| >= 2 && s.manifestTmp == Some([o] + s.paths[2..])
    ensures var t := DoDrop(DoDrop(DoDrop(DoSwap(s, true), true), true), true);
      && t.phase == Reading && t.paths == [o] + s.paths[2..] && t.manifest == t.paths && t.manifestTmp == None
      && t.files == s.files - {s.paths[0]} - {s.paths[1]} && t.compactionFailed == s.compactionFailed
  {
    var merged := s.paths[..2];
    assert merged[0] == s.paths[0] && merged[1..] == [s.paths[1]] && merged[1..][1..] == [];
  }

  /** The two oldest tables have become one that holds `out`, in the list, the manifest and on disk. */
  ghost predicate Compacted(s: Store, t: Store, out: Entries)
    requires |s.paths| >= 2
  {
    && t.phase == Reading && |t.paths| == |s.paths| - 1 && t.paths[0] !in s.paths && t.paths[1..] == s.paths[2..]
    && t.manifest == t.paths && t.manifestTmp == None && t.compactionFailed == s.compactionFailed
    && t.paths[0] in t.files && t.files[t.paths[0]] == out && s.paths[0] !in t.files && s.paths[1] !in t.files
    && forall p :: p in s.paths[2..] ==> p in t.files && p in s.files && t.files[p] == s.files[p]
  }

  lemma CompactedFiles(s: Store, t: Store, o: string, out: Entries)
    requires |s.paths| >= 2 && o !in s.paths && TmpName(o) !in s.paths && TmpName(o) != o
    requires forall i, j :: 0 <= i < j < |s.paths| ==> s.paths[i] != s.paths[j]
    requires forall p :: p in s.paths ==> p in s.files
    requires t.phase == Reading && t.paths == [o] + s.paths[2..] && t.manifest == t.paths && t.manifestTmp == None
    requires t.compactionFailed == s.compactionFailed
    requires t.files == s.files[TmpName(o) := out][o := out] - {TmpName(o)} - {s.paths[0]} - {s.paths[1]}
    ensures Compacted(s, t, out)
  {
    assert s.paths[0] in s.paths && s.paths[1] in s.paths;
    forall p | p in s.paths[2..] ensures p in t.files && p in s.files && t.files[p] == s.files[p] {
      var i :| 0 <= i < |s.paths[2..]| && s.paths[2..][i] == p;
      assert s.paths[i + 2] == p;
      assert p in s.paths;
    }
  }

  lemma DueStarts(s: Store, l: Layout, out: Entries) returns (o: string)
    requires ControlInv(s, l) && Due(s, out)
    ensures DoEndPoll(s).phase == Merging(o) && o !in s.paths && TmpName(o) !in s.paths && TmpName(o) != o
    ensures var t := DoEndPoll(s); t.paths == s.paths && t.files == s.files && t.compactionFailed == s.compactionFailed
  {
    o := CompactName(FreshId(s.paths, s.nextId));
    TmpNotListed(s, o);
  }

  /** The steps of a compaction in which every file operation succeeds. */
  function Steps(out: Entries): seq<Step> {
    [EndPoll] + [Merge(out)] + [Publish(true)] + [Prepare(true)] + [Swap(true)] + [Drop(true)] + [Drop(true)] + [Drop(true)]
  }

  lemma StepsRun(vb: nat, ws: seq<Write>, steps: seq<Step>, out: Entries, s: Store)
    requires s == Run(vb, ws, steps)
    ensures Run(vb, ws, steps + Steps(out))
         == DoDrop(DoDrop(DoDrop(DoSwap(DoPrepare(DoPublish(DoMerge(DoEndPoll(s), out), true), true), true), true), true), true)
  {
    var s1 := DoEndPoll(s);
    RunMore(vb, ws, steps, EndPoll, s, s1);
    var s4 := PublishRun(vb, ws, steps + [EndPoll], out, s1);
    var before := steps + [EndPoll] + [Merge(out)] + [Publish(true)] + [Prepare(true)];
    InstallRun(vb, ws, before, s4);
    assert steps + Steps(out) == before + [Swap(true)] + [Drop(true)] + [Drop(true)] + [Drop(true)];
  }

  lemma PublishRun(vb: nat, ws: seq<Write>, steps: seq<Step>, out: Entries, s: Store) returns (t: Store)
    requires s == Run(vb, ws, steps)
    ensures t == DoPrepare(DoPublish(DoMerge(s, out), true), true)
    ensures Run(vb, ws, steps + [Merge(out)] + [Publish(true)] + [Prepare(true)]) == t
  {
    var s1 := DoMerge(s, out);
    var s2 := DoPublish(s1, true);
    t := DoPrepare(s2, true);
    RunMore(vb, ws, steps, Merge(out), s, s1);
    RunMore(vb, ws, steps + [Merge(out)], Publish(true), s1, s2);
    RunMore(vb, ws, steps + [Merge(out)] + [Publish(true)], Prepare(true), s2, t);
  }

  lemma InstallRun(vb: nat, ws: seq<Write>, steps: seq<Step>, s: Store)
    requires s == Run(vb, ws, steps)
    ensures Run(vb, ws, steps + [Swap(true)] + [Drop(true)] + [Drop(true)] + [Drop(true)])
         == DoDrop(DoDrop(DoDrop(DoSwap(s, true), true), true), true)
  {
    var s1 := DoSwap(s, true);
    var s2 := DoDrop(s1, true);
    RunMore(vb, ws, steps, Swap(true), s, s1);
    RunMore(vb, ws, steps + [Swap(true)], Drop(true), s1, s2);
    RunMore(vb, ws, steps + [Swap(true)] + [Drop(true)], Drop(true), s2, DoDrop(s2, true));
    RunMore(vb, ws, steps + [Swap(true)] + [Drop(true)] + [Drop(true)], Drop(true), DoDrop(s2, true), DoDrop(DoDrop(s2, true), true));
  }

  /** In every session a due compaction whose file operations succeed puts one table in the place of the two oldest. */
  lemma CompactionCompletes(vb: nat, ws: seq<Write>, steps: seq<Step>, out: Entries)
    requires Due(Run(vb, ws, steps), out)
    ensures Compacted(Run(vb, ws, steps), Run(vb, ws, steps + Steps(out)), out)
  {
    var s := Run(vb, ws, steps);
    var l := RunInv(vb, ws, steps);
    var o := DueStarts(s, l, out);
    var s1 := DoEndPoll(s);
    Publishes(s1, o, out);
    var s4 := DoPrepare(DoPublish(DoMerge(s1, out), true), true);
    Installs(s4, o);
    StepsRun(vb, ws, steps, out, s);
    ListedThere(s, l);
    CompactedFiles(s, Run(vb, ws, steps + Steps(out)), o, out);
  }

  // ---- a flush that fails ----

  /** The slot is taken and nothing is under way that could free it. */
  ghost predicate Stuck(s: Store) {
    Quiet(s) && s.slot == Some(map[]) && (s.phase == Ready || s.phase == Reading || s.phase == Draining(false))
  }

  /** The worker gives a task up: its file could not be written, or the manifest not be appended to. */
  predicate GivesUp(s: Store, step: Step) {
    (s.worker.Writing? && step.WorkerWrites? && !step.ok) || (s.worker.Listing? && step.WorkerLists? && !step.ok)
  }

  lemma GivenUp(s: Store, l: Layout, step: Step)
    requires ControlInv(s, l) && GivesUp(s, step)
    ensures Stuck(Next(s, step)) && Next(s, step).handed == s.handed
  {
  }

  ghost predicate StillStuck(s: Store, t: Store) {
    Stuck(t) && t.paths == s.paths && t.handed == s.handed && s.memBytes <= t.memBytes
  }

  lemma StuckWrites(s: Store, key: string, value: Option<string>, logged: bool)
    requires Stuck(s) && s.phase == Ready
    ensures StillStuck(s, AfterWrite(s, key, value, logged))
  {
  }

  lemma StuckDrains(s: Store)
    requires Stuck(s)
    ensures StillStuck(s, DoPoll(s)) && StillStuck(s, DoEndPoll(s))
  {
  }

  lemma StuckCompacts(s: Store, step: Step)
    requires Stuck(s) && (step.Merge? || step.MergeFails? || step.Publish? || step.Prepare? || step.Swap? || step.Drop?)
    ensures Next(s, step) == s
  {
  }

  lemma StuckStays(s: Store, step: Step)
    requires Stuck(s)
    ensures StillStuck(s, Next(s, step))
  {
    match step
    case Put(key, value, logged) => if s.phase == Ready { StuckWrites(s, key, Some(value), logged); }
    case Del(key, logged) => if s.phase == Ready && key in s.latest { StuckWrites(s, key, None, logged); }
    case BeginRead(_, _) =>
    case EndRead =>
    case Poll => StuckDrains(s);
    case EndPoll => StuckDrains(s);
    case WorkerTakes =>
    case WorkerWrites(_, _) =>
    case WorkerLists(_) =>
    case WorkerReports =>
    case _ => StuckCompacts(s, step);
  }

  lemma {:induction false} StuckForever(vb: nat, ws: seq<Write>, steps: seq<Step>, more: seq<Step>)
    requires Stuck(Run(vb, ws, steps))
    ensures StillStuck(Run(vb, ws, steps), Run(vb, ws, steps + more))
  {
    if more == [] {
      assert steps + more == steps;
    } else {
      var n := |more| - 1;
      StuckForever(vb, ws, steps, more[..n]);
      assert steps + more == (steps + more[..n]) + [more[n]];
      StuckStays(Run(vb, ws, steps + more[..n]), more[n]);
      RunMore(vb, ws, steps + more[..n], more[n], Run(vb, ws, steps + more[..n]), Next(Run(vb, ws, steps + more[..n]), more[n]));
    }
  }

  /**
   After one failed flush no flush ever happens again: the slot stays taken, no table is added, and a
   version that the worker had is hidden from every read that the memtable does not answer.
   */
  lemma FailedFlushSticks(vb: nat, ws: seq<Write>, steps: seq<Step>, step: Step, more: seq<Step>, key: string, time: nat)
    requires GivesUp(Run(vb, ws, steps), step) && Numbered(ws)
    ensures var s, t := Run(vb, ws, steps), Run(vb, ws, steps + [step] + more);
      && t.slot == Some(map[]) && t.tasks == [] && t.worker == Waiting && t.completions == [] && t.paths == s.paths
      && (Latest(VersionsOf(t.mem, key), time) == None && Latest(VersionsOf(s.handed, key), time).Some?
          ==> Sees(t, key, time) != NewestVersion(t.hist, key, time))
  {
    var s := Run(vb, ws, steps);
    var l := RunInv(vb, ws, steps);
    GivenUp(s, l, step);
    RunMore(vb, ws, steps, step, s, Next(s, step));
    StuckForever(vb, ws, steps + [step], more);
    ReadExactIff(vb, ws, steps + [step] + more, key, time);
  }
}
