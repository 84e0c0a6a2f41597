/** What holds in every reachable state of a session, for every interleaving of clients and worker. */
module LsmSafety {
  import opened Options
  import opened Mvcc
  import opened LsmStore
  import opened LsmInvariant
  import opened LsmSteps

  // ---- opening ----

  /** A store that has only refilled its memtable. */
  ghost predicate Refilled(s: Store, ws: seq<Write>) {
    && s.slot == None && s.paths == [] && s.nextId == 0 && s.tasks == [] && s.worker == Waiting && s.completions == []
    && s.manifest == [] && s.manifestTmp == None && s.phase == Ready && s.handed == map[] && !s.compactionFailed
    && s.hist == ws && Holds(s.mem, ws) && WritesUpTo(ws, s.lastSeq) && LatestInv(s.latest, ws, s.lastSeq)
  }

  lemma {:induction false} RecoveredRefilled(vb: nat, ws: seq<Write>)
    ensures Refilled(Recovered(vb, ws), ws)
  {
    if ws == [] {
      forall key ensures HoldsAt(map[], [], key) {
      }
      forall key ensures LatestAt(map[], [], 0, key) {
      }
    } else {
      var front, w := ws[..|ws| - 1], ws[|ws| - 1];
      var s := Recovered(vb, front);
      RecoveredRefilled(vb, front);
      assert ws == front + [w];
      PushHolds(s.mem, front, w);
      var u := if w.version.timestamp > s.lastSeq then w.version.timestamp else s.lastSeq;
      RecordLatestAll(s.latest, front, s.lastSeq, w, u);
    }
  }

  lemma RefilledInv(s: Store, ws: seq<Write>, l: Layout)
    requires Refilled(s, ws) && l.tables == [] && l.flight == [] && l.mem == ws
    requires (l.numbered ==> Numbered(ws)) && (l.settled ==> Settles(ws))
    ensures Inv(s, l)
  {
    assert Flat([]) + [] + ws == ws;
    forall key ensures HoldsAt(map[], [], key) {
    }
    forall i, j | 0 <= i < j < |Segments(l)| ensures Under(Segments(l)[i], Segments(l)[j]) {
    }
  }

  /** Whatever the log held, a session keeps the invariant; numbered and settled logs keep what that brings. */
  lemma {:induction false} RunInv(vb: nat, ws: seq<Write>, steps: seq<Step>) returns (l: Layout)
    ensures Inv(Run(vb, ws, steps), l)
    ensures (l.numbered <==> Numbered(ws)) && (l.settled <==> Settles(ws))
  {
    if steps == [] {
      l := Layout([], [], ws, Numbered(ws), Settles(ws));
      RecoveredRefilled(vb, ws);
      RefilledInv(Recovered(vb, ws), ws, l);
    } else {
      var l0 := RunInv(vb, ws, steps[..|steps| - 1]);
      l := StepKeepsInv(Run(vb, ws, steps[..|steps| - 1]), l0, steps[|steps| - 1]);
    }
  }

  // ---- reads ----

  /** The version a read sees: memtable, slot, then tables. */
  function Sees(s: Store, key: string, t: nat): Option<Version> {
    var m := Latest(VersionsOf(s.mem, key), t);
    var i := if s.slot.Some? then Latest(VersionsOf(s.slot.value, key), t) else None;
    if m.Some? then m else if i.Some? then i else TablesSee(s.files, s.paths, key, t)
  }

  lemma {:induction false} TablesAnswerSeen(files: map<string, Entries>, paths: seq<string>, key: string, t: nat)
    ensures TablesAt(files, paths, key, t) == ResultOf(TablesSee(files, paths, key, t))
  {
    if paths != [] { TablesAnswerSeen(files, paths[..|paths| - 1], key, t); }
  }

  /** A read answers with the version it sees. */
  lemma GetAnswersSeen(s: Store, key: string, t: nat)
    ensures Get(s, key, t) == Answer(ResultOf(Sees(s, key, t)))
  {
    NewestIsLatest(VersionsOf(s.mem, key), t);
    if s.slot.Some? { NewestIsLatest(VersionsOf(s.slot.value, key), t); }
    TablesAnswerSeen(s.files, s.paths, key, t);
  }

  lemma LastSegments(l: Layout)
    requires Stacked(Segments(l))
    ensures Stacked(l.tables) && Under(Flat(l.tables), l.flight) && Under(Flat(l.tables) + l.flight, l.mem)
  {
    var segs := Segments(l);
    assert segs[..|segs| - 1] == l.tables + [l.flight] && (l.tables + [l.flight])[..|l.tables|] == l.tables;
    FlatUnder(segs);
    FlatUnder(l.tables + [l.flight]);
    FlatAppend(l.tables, l.flight);
  }

  lemma SegmentsNumbered(s: Store, l: Layout)
    requires HistInv(s, l) && l.numbered
    ensures Numbered(Flat(l.tables)) && Numbered(l.flight) && Numbered(l.mem)
  {
    NumberedPart(s.hist, Flat(l.tables));
    NumberedPart(s.hist, l.flight);
    NumberedPart(s.hist, l.mem);
  }

  /** The newest version, found layer by layer, the one with the worker included. */
  lemma LayersSee(s: Store, l: Layout, key: string, t: nat)
    requires Inv(s, l) && l.numbered
    ensures TablesSee(s.files, s.paths, key, t) == NewestVersion(Flat(l.tables), key, t)
    ensures var m, f := Best(VersionsOf(s.mem, key), t), Best(VersionsOf(s.handed, key), t);
      NewestVersion(s.hist, key, t) == if m.Some? then m else if f.Some? then f else TablesSee(s.files, s.paths, key, t)
  {
    LastSegments(l);
    SegmentsNumbered(s, l);
    TablesReadHistory(s.files, s.paths, l.tables, key, t);
    assert HoldsAt(s.mem, l.mem, key) && HoldsAt(s.handed, l.flight, key);
    NewestOver(Flat(l.tables) + l.flight, l.mem, key, t);
    NewestOver(Flat(l.tables), l.flight, key, t);
  }

  /** A version in flight is newer than any in the tables. */
  lemma FlightIsNewer(s: Store, l: Layout, key: string, t: nat)
    requires HistInv(s, l) && Best(VersionsOf(s.handed, key), t).Some?
    ensures Best(VersionsOf(s.handed, key), t) != NewestVersion(Flat(l.tables), key, t)
  {
    var f, d := Best(VersionsOf(s.handed, key), t), NewestVersion(Flat(l.tables), key, t);
    LastSegments(l);
    assert HoldsAt(s.handed, l.flight, key);
    BestIsVisible(VersionsOf(s.handed, key), t);
    BestIsVisible(HistoryOf(Flat(l.tables), key), t);
    HistoryFrom(l.flight, key);
    HistoryFrom(Flat(l.tables), key);
    if d.Some? {
      assert Write(key, d.value) in Flat(l.tables) && Write(key, f.value) in l.flight;
    }
  }

  lemma SameVisibility(vs: seq<Version>, t: nat)
    ensures Latest(vs, t).Some? <==> Best(vs, t).Some?
  {
    LatestNone(vs, t);
    BestNone(vs, t);
  }

  /** What the memtable and the worker's entries must be like for a read to see the newest version. */
  ghost predicate Exact(s: Store, key: string, t: nat) {
    if Latest(VersionsOf(s.mem, key), t).Some? then SettledAt(VersionsOf(s.mem, key), t)
    else Latest(VersionsOf(s.handed, key), t) == None
  }

  lemma SeesIff(s: Store, l: Layout, key: string, t: nat)
    requires Inv(s, l) && l.numbered
    ensures Sees(s, key, t) == NewestVersion(s.hist, key, t) <==> Exact(s, key, t)
  {
    LayersSee(s, l, key, t);
    assert s.slot.Some? ==> VersionsOf(s.slot.value, key) == [];
    SameVisibility(VersionsOf(s.mem, key), t);
    SameVisibility(VersionsOf(s.handed, key), t);
    LatestIsBestIff(VersionsOf(s.mem, key), t);
    if Best(VersionsOf(s.handed, key), t).Some? { FlightIsNewer(s, l, key, t); }
  }

  /**
   In every reachable state a read sees the newest version not after its time if and only if the
   memtable has visible versions of the key and they are settled then, or it has none and neither has
   the outstanding flush.
   */
  lemma ReadExactIff(vb: nat, ws: seq<Write>, steps: seq<Step>, key: string, t: nat)
    requires Numbered(ws)
    ensures var s := Run(vb, ws, steps); Sees(s, key, t) == NewestVersion(s.hist, key, t) <==> Exact(s, key, t)
  {
    var l := RunInv(vb, ws, steps);
    SeesIff(Run(vb, ws, steps), l, key, t);
  }

  /** A store sees the newest versions at once after opening exactly when the log's writes are settled. */
  lemma OpenedExactIff(vb: nat, ws: seq<Write>)
    ensures (forall key, t :: Sees(Recovered(vb, ws), key, t) == NewestVersion(ws, key, t)) <==> Settles(ws)
  {
    var s := Recovered(vb, ws);
    RecoveredRefilled(vb, ws);
    forall key, t: nat ensures Sees(s, key, t) == Latest(HistoryOf(ws, key), t) {
      assert HoldsAt(s.mem, ws, key);
    }
    if Settles(ws) {
      forall key, t: nat ensures Sees(s, key, t) == NewestVersion(ws, key, t) {
        assert Settled(HistoryOf(ws, key));
        LatestIsBestAlwaysIff(HistoryOf(ws, key));
        assert Sees(s, key, t) == Latest(HistoryOf(ws, key), t) == Best(HistoryOf(ws, key), t);
      }
    } else {
      var key :| !Settled(HistoryOf(ws, key));
      LatestIsBestAlwaysIff(HistoryOf(ws, key));
      var t: nat :| Latest(HistoryOf(ws, key), t) != Best(HistoryOf(ws, key), t);
      assert Sees(s, key, t) != NewestVersion(ws, key, t);
    }
  }

  /** Settled versions whose last part is newer throughout leave that part settled. */
  lemma SettledPart(a: seq<Version>, b: seq<Version>)
    requires Settled(a + b) && forall v, w :: v in a && w in b ==> v.timestamp < w.timestamp
    ensures Settled(b)
  {
    LatestIsBestAlwaysIff(a + b);
    forall t: nat ensures Latest(b, t) == Best(b, t) {
      assert Latest(a + b, t) == Best(a + b, t);
      LatestConcat(a, b, t);
      BestConcat(a, b, t);
      SameVisibility(b, t);
    }
    LatestIsBestAlwaysIff(b);
  }

  lemma MemSettled(s: Store, l: Layout, key: string)
    requires HistInv(s, l) && l.settled
    ensures Settled(VersionsOf(s.mem, key))
  {
    var a := Flat(l.tables) + l.flight;
    LastSegments(l);
    assert HoldsAt(s.mem, l.mem, key);
    HistoryConcat(a, l.mem, key);
    HistoryFrom(a, key);
    HistoryFrom(l.mem, key);
    assert Settled(HistoryOf(s.hist, key));
    forall v, w | v in HistoryOf(a, key) && w in HistoryOf(l.mem, key) ensures v.timestamp < w.timestamp {
      assert Write(key, v) in a && Write(key, w) in l.mem;
    }
    SettledPart(HistoryOf(a, key), HistoryOf(l.mem, key));
  }

  lemma DrainedExact(s: Store, l: Layout, key: string, t: nat)
    requires Inv(s, l) && l.numbered && l.settled && s.slot == None
    ensures Sees(s, key, t) == NewestVersion(s.hist, key, t)
    ensures Get(s, key, t) == Expected(s.hist, key, t)
  {
    MemSettled(s, l, key);
    LatestIsBestAlwaysIff(VersionsOf(s.mem, key));
    LatestIsBestIff(VersionsOf(s.mem, key), t);
    SeesIff(s, l, key, t);
    GetAnswersSeen(s, key, t);
    assert Settled(HistoryOf(s.hist, key));
    LatestIsBestAlwaysIff(HistoryOf(s.hist, key));
    NewestIsLatest(HistoryOf(s.hist, key), t);
  }

  /** On a settled log, with no flush outstanding, every read is exact. */
  lemma ReadExactWhenDrained(vb: nat, ws: seq<Write>, steps: seq<Step>, key: string, t: nat)
    requires Numbered(ws) && Settles(ws) && Run(vb, ws, steps).slot == None
    ensures var s := Run(vb, ws, steps); Get(s, key, t) == Expected(s.hist, key, t)
    ensures var s := Run(vb, ws, steps); forall v :: Visible(HistoryOf(s.hist, key), t, v) ==> Get(s, key, t) == v.value
    ensures var s := Run(vb, ws, steps); (forall v :: v in HistoryOf(s.hist, key) ==> v.timestamp > t) ==> Get(s, key, t) == None
  {
    var s := Run(vb, ws, steps);
    var l := RunInv(vb, ws, steps);
    DrainedExact(s, l, key, t);
    GetAnswersSeen(s, key, t);
    BestIsVisible(HistoryOf(s.hist, key), t);
    forall v | Visible(HistoryOf(s.hist, key), t, v) ensures Get(s, key, t) == v.value {
      NumberedAgree(s.hist, key);
      assert NewestVersion(s.hist, key, t) == Some(v);
    }
  }

  /** get() agrees with the last write of the key, whatever the log held. */
  lemma LatestExact(vb: nat, ws: seq<Write>, steps: seq<Step>, key: string)
    ensures var s := Run(vb, ws, steps);
      (if key in s.latest then Some(s.latest[key]) else None) == Expected(s.hist, key, s.lastSeq)
  {
    var s := Run(vb, ws, steps);
    var l := RunInv(vb, ws, steps);
    assert LatestAt(s.latest, s.hist, s.lastSeq, key);
  }

  /** The first write of a session, if it fills the memtable, goes to the worker at once. */
  lemma FirstWriteFlushed(vb: nat, key: string, value: string)
    requires |key| + |value| + TIMESTAMP_BYTES + vb >= FLUSH_THRESHOLD
    ensures var s := DoPut(Empty(vb), key, value, true);
      && s.phase == Ready && s.mem == map[] && s.slot == Some(map[]) && s.paths == [] && s.completions == []
      && s.hist == [Write(key, Version(1, Some(value)))]
  {
    var s := Record(Empty(vb).(lastSeq := 1), Write(key, Version(1, Some(value))));
    assert key in s.mem;
  }

  /** A value large enough to fill the memtable is unreadable until its flush is drained. */
  lemma FlushHidesWrite(vb: nat, key: string, value: string)
    requires |key| + |value| + TIMESTAMP_BYTES + vb >= FLUSH_THRESHOLD
    ensures var s := DoEndPoll(DoBeginRead(DoPut(Empty(vb), key, value, true), key, 1));
      && s.phase == Reading && s.query == Query(key, 1)
      && Expected(s.hist, key, 1) == Some(value)
      && Get(s, key, 1) == None
  {
    FirstWriteFlushed(vb, key, value);
    var w := Write(key, Version(1, Some(value)));
    assert [w] == [] + [w];
    HistoryAppend([], w, key);
    assert HistoryOf([w], key) == [w.version];
  }

  // ---- timestamps ----

  /** Every timestamp in the first entries is below every timestamp in the second. */
  ghost predicate Before(a: Entries, b: Entries) {
    forall k1, v, k2, w :: v in VersionsOf(a, k1) && w in VersionsOf(b, k2) ==> v.timestamp < w.timestamp
  }

  lemma StandsWritten(e: Entries, ws: seq<Write>, key: string, v: Version)
    requires Stands(e, ws) && v in VersionsOf(e, key)
    ensures Write(key, v) in ws
  {
    assert StandsAt(e, ws, key);
    HistoryFrom(ws, key);
  }

  lemma SegmentsBefore(a: Entries, b: Entries, x: seq<Write>, y: seq<Write>)
    requires Stands(a, x) && Stands(b, y) && Under(x, y)
    ensures Before(a, b)
  {
    forall k1, v, k2, w | v in VersionsOf(a, k1) && w in VersionsOf(b, k2) ensures v.timestamp < w.timestamp {
      StandsWritten(a, x, k1, v);
      StandsWritten(b, y, k2, w);
    }
  }

  lemma TablesBefore(s: Store, l: Layout, i: nat, j: nat)
    requires Inv(s, l) && l.numbered && i < j < |s.paths|
    ensures s.paths[i] in s.files && s.paths[j] in s.files && Before(s.files[s.paths[i]], s.files[s.paths[j]])
  {
    assert TableOk(true, s.files, s.paths[i], l.tables[i]) && TableOk(true, s.files, s.paths[j], l.tables[j]);
    assert Segments(l)[i] == l.tables[i] && Segments(l)[j] == l.tables[j];
    assert Under(Segments(l)[i], Segments(l)[j]);
    SegmentsBefore(s.files[s.paths[i]], s.files[s.paths[j]], l.tables[i], l.tables[j]);
  }

  lemma TableBeforeMem(s: Store, l: Layout, j: nat)
    requires Inv(s, l) && l.numbered && j < |s.paths|
    ensures s.paths[j] in s.files && Before(s.files[s.paths[j]], s.mem)
  {
    assert TableOk(true, s.files, s.paths[j], l.tables[j]);
    var n := |l.tables| + 1;
    assert Segments(l)[j] == l.tables[j] && Segments(l)[n] == l.mem;
    assert Under(Segments(l)[j], Segments(l)[n]);
    HeldStands(s.mem, l.mem);
    SegmentsBefore(s.files[s.paths[j]], s.mem, l.tables[j], l.mem);
  }

  /** Every table's timestamps stay below those of the memtable. */
  lemma TablesBelowMemtable(vb: nat, ws: seq<Write>, steps: seq<Step>, j: nat)
    requires Numbered(ws) && j < |Run(vb, ws, steps).paths|
    ensures var s := Run(vb, ws, steps); s.paths[j] in s.files && Before(s.files[s.paths[j]], s.mem)
  {
    var l := RunInv(vb, ws, steps);
    TableBeforeMem(Run(vb, ws, steps), l, j);
  }

  /** Timestamps rise along the list of tables. */
  lemma TimestampsRise(vb: nat, ws: seq<Write>, steps: seq<Step>, i: nat, j: nat)
    requires Numbered(ws) && i < j < |Run(vb, ws, steps).paths|
    ensures var s := Run(vb, ws, steps);
      s.paths[i] in s.files && s.paths[j] in s.files && Before(s.files[s.paths[i]], s.files[s.paths[j]])
  {
    var l := RunInv(vb, ws, steps);
    TablesBefore(Run(vb, ws, steps), l, i, j);
  }

  // ---- flush and compaction ----

  /** How many flushes are queued, running or waiting to be drained. */
  function Outstanding(s: Store): nat {
    |s.tasks| + (if s.worker == Waiting then 0 else 1) + |s.completions|
  }

  predicate InCompaction(s: Store) {
    s.phase.Merging? || s.phase.Publishing? || s.phase.Preparing? || s.phase.Swapping? || s.phase.Dropping?
  }

  lemma Exclusion(s: Store, l: Layout)
    requires ControlInv(s, l)
    ensures Outstanding(s) <= 1
    ensures s.slot == None || InCompaction(s) ==> Outstanding(s) == 0
    ensures !s.compactionFailed && (s.phase == Ready || s.phase == Reading) ==> |s.paths| <= 3
  {
  }

  /**
   Without a shared lock: at most one flush is outstanding, none while a compaction runs (so the
   worker cannot append to a manifest that is being replaced), and successful compactions keep the
   list below the trigger.
   */
  lemma FlushCompactionExclusion(vb: nat, ws: seq<Write>, steps: seq<Step>)
    ensures var s := Run(vb, ws, steps);
      && Outstanding(s) <= 1
      && (s.slot == None || InCompaction(s) ==> Outstanding(s) == 0)
      && (!s.compactionFailed && (s.phase == Ready || s.phase == Reading) ==> |s.paths| <= 3)
  {
    var l := RunInv(vb, ws, steps);
    Exclusion(Run(vb, ws, steps), l);
  }

  // ---- crashes ----

  /** The segments behind the tables of the manifest, and the rest of the history. */
  lemma ManifestTables(s: Store, l: Layout) returns (tables: seq<seq<Write>>, rest: seq<Write>)
    requires Inv(s, l)
    ensures TablesOk(l.numbered, s.files, s.manifest, tables) && Stacked(tables)
    ensures Durable(s, l) == Flat(tables) && s.hist == Flat(tables) + rest
  {
    LastSegments(l);
    if Listed(s) == [] {
      tables, rest := l.tables, l.flight + l.mem;
      assert s.manifest == s.paths;
      assert Durable(s, l) == Flat(l.tables);
    } else {
      assert |Listed(s)| == 1;
      var p := Listed(s)[0];
      tables, rest := l.tables + [l.flight], l.mem;
      HeldStands(s.handed, l.flight);
      assert TableOk(l.numbered, s.files, p, l.flight);
      DrainedTables(s, l, p);
      assert s.manifest == s.paths + [p];
      FlatAppend(l.tables, l.flight);
      assert Segments(l)[..|l.tables| + 1] == tables;
      FlatUnder(Segments(l));
    }
  }

  lemma ManifestExists(s: Store, l: Layout)
    requires Inv(s, l)
    ensures forall p :: p in s.manifest ==> p in s.files
    ensures Durable(s, l) <= s.hist
  {
    var tables, rest := ManifestTables(s, l);
    forall p | p in s.manifest ensures p in s.files {
      var i :| 0 <= i < |s.manifest| && s.manifest[i] == p;
      assert TableOk(l.numbered, s.files, s.manifest[i], tables[i]);
    }
  }

  lemma DiskReadsDurable(s: Store, l: Layout, key: string, t: nat)
    requires Inv(s, l) && l.numbered
    ensures OnDisk(s, key, t) == ResultOf(NewestVersion(Durable(s, l), key, t))
  {
    var tables, rest := ManifestTables(s, l);
    NumberedPart(s.hist, Flat(tables));
    TablesReadHistory(s.files, s.manifest, tables, key, t);
    TablesAnswerSeen(s.files, s.manifest, key, t);
  }

  /** With no flush outstanding, what the tables do not hold is in the memtable. */
  lemma RestInMemory(s: Store, l: Layout)
    requires Inv(s, l) && s.slot == None
    ensures Durable(s, l) <= s.hist && Holds(s.mem, s.hist[|Durable(s, l)|..])
  {
    if l.flight != [] { EmptyHolds(l.flight); }
    assert Listed(s) == [];
    assert s.hist == Durable(s, l) + l.mem;
  }

  /** In every state all files of the manifest exist and answer for a prefix of the history; the rest is in memory. */
  lemma DiskIsPrefix(vb: nat, ws: seq<Write>, steps: seq<Step>) returns (n: nat)
    ensures var s := Run(vb, ws, steps);
      && n <= |s.hist|
      && (forall p :: p in s.manifest ==> p in s.files)
      && (Numbered(ws) ==> forall key, t :: OnDisk(s, key, t) == ResultOf(NewestVersion(s.hist[..n], key, t)))
      && (s.slot == None ==> Holds(s.mem, s.hist[n..]))
  {
    var s := Run(vb, ws, steps);
    var l := RunInv(vb, ws, steps);
    ManifestExists(s, l);
    n := |Durable(s, l)|;
    assert s.hist[..n] == Durable(s, l);
    if s.slot == None { RestInMemory(s, l); }
    if Numbered(ws) {
      forall key, t: nat ensures OnDisk(s, key, t) == ResultOf(NewestVersion(s.hist[..n], key, t)) {
        DiskReadsDurable(s, l, key, t);
      }
    }
  }

  /**
   A crash between any two file operations of a compaction, or of anything else but the worker's
   append, finds on disk exactly the answers of before; the append only adds the flushed writes.
   */
  lemma CrashAtomic(vb: nat, ws: seq<Write>, steps: seq<Step>, step: Step, key: string, t: nat)
    ensures var s' := Next(Run(vb, ws, steps), step); forall p :: p in s'.manifest ==> p in s'.files
    ensures Numbered(ws) ==>
      var s := Run(vb, ws, steps); var s' := Next(s, step);
      && (!step.WorkerLists? ==> OnDisk(s', key, t) == OnDisk(s, key, t))
      && (OnDisk(s, key, t) != NotFound ==> OnDisk(s', key, t) != NotFound)
  {
    var s := Run(vb, ws, steps);
    var l := RunInv(vb, ws, steps);
    var l' := StepKeepsInv(s, l, step);
    ManifestExists(Next(s, step), l');
    if Numbered(ws) {
      DiskReadsDurable(s, l, key, t);
      DiskReadsDurable(Next(s, step), l', key, t);
      VisibleStays(Durable(s, l), Durable(Next(s, step), l'), key, t);
    }
  }

  lemma VisibleStays(a: seq<Write>, b: seq<Write>, key: string, t: nat)
    requires a <= b
    ensures NewestVersion(a, key, t).Some? ==> NewestVersion(b, key, t).Some?
  {
    assert b == a + b[|a|..];
    HistoryConcat(a, b[|a|..], key);
    var x, y := HistoryOf(a, key), HistoryOf(b, key);
    BestNone(x, t);
    BestNone(y, t);
    if Best(y, t) == None {
      forall i | 0 <= i < |x| ensures x[i].timestamp > t {
        assert y[i] == x[i];
      }
    }
  }
}
