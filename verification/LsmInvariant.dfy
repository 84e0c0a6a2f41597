/** The invariant of store and worker: the history is cut into the segments that the layers hold. */
module LsmInvariant {
  import opened Options
  import opened Mvcc
  import opened Compactor
  import opened TableNames
  import opened LsmStore

  /**
   Which part of the history each table, the worker and the memtable hold; whether the history is
   numbered, without which nothing is said about the contents of tables, and whether it is settled.
   */
  datatype Layout = Layout(tables: seq<seq<Write>>, flight: seq<Write>, mem: seq<Write>, numbered: bool, settled: bool)

  function Flat(tables: seq<seq<Write>>): seq<Write> {
    if tables == [] then [] else Flat(tables[..|tables| - 1]) + tables[|tables| - 1]
  }

  /** The entries have the versions of these writes, in whatever order and number. */
  ghost predicate Stands(e: Entries, ws: seq<Write>) {
    forall key :: StandsAt(e, ws, key)
  }

  ghost predicate StandsAt(e: Entries, ws: seq<Write>, key: string) {
    forall v :: v in VersionsOf(e, key) <==> v in HistoryOf(ws, key)
  }

  ghost predicate TableOk(numbered: bool, files: map<string, Entries>, path: string, ws: seq<Write>) {
    path in files && (numbered ==> Stands(files[path], ws))
  }

  ghost predicate TablesOk(numbered: bool, files: map<string, Entries>, paths: seq<string>, tables: seq<seq<Write>>) {
    |tables| == |paths| && forall i :: 0 <= i < |paths| ==> TableOk(numbered, files, paths[i], tables[i])
  }

  /** Every timestamp in b is above every timestamp in a. */
  ghost predicate Under(a: seq<Write>, b: seq<Write>) {
    forall v, w :: v in a && w in b ==> v.version.timestamp < w.version.timestamp
  }

  /** Timestamps rise from segment to segment. */
  ghost predicate Stacked(segments: seq<seq<Write>>) {
    forall i, j :: 0 <= i < j < |segments| ==> Under(segments[i], segments[j])
  }

  function Segments(l: Layout): seq<seq<Write>> {
    l.tables + [l.flight] + [l.mem]
  }

  ghost predicate PathsOk(paths: seq<string>, nextId: nat) {
    && (forall i, j :: 0 <= i < j < |paths| ==> paths[i] != paths[j])
    && (forall i :: 0 <= i < |paths| ==> Named(paths[i], nextId))
  }

  /** The worker has nothing to do and nothing to report. */
  predicate Quiet(s: Store) {
    s.tasks == [] && s.worker == Waiting && s.completions == []
  }

  ghost predicate NewPath(s: Store, p: string) {
    p !in s.paths && Named(p, s.nextId)
  }

  /** At most one flush is queued, running or waiting to be drained. */
  ghost predicate FlightInv(s: Store) {
    || Quiet(s)
    || (|s.tasks| == 1 && s.worker == Waiting && s.completions == []
        && s.tasks[0].entries == s.handed && NewPath(s, s.tasks[0].path))
    || (s.tasks == [] && s.worker != Waiting && s.completions == []
        && s.worker.task.entries == s.handed && NewPath(s, s.worker.task.path)
        && (!s.worker.Writing? ==> s.worker.task.path in s.files && s.files[s.worker.task.path] == s.handed))
    || (s.tasks == [] && s.worker == Waiting && |s.completions| == 1
        && NewPath(s, s.completions[0]) && s.completions[0] in s.files && s.files[s.completions[0]] == s.handed)
  }

  ghost predicate SlotInv(s: Store) {
    match s.slot
    case None => Quiet(s) && s.handed == map[]
    case Some(e) => e == map[]
  }

  /** The table of the flush that the manifest already names but the store does not. */
  function Listed(s: Store): seq<string> {
    if s.worker.Reporting? then [s.worker.task.path] else s.completions
  }

  ghost predicate HistInv(s: Store, l: Layout) {
    && s.hist == Flat(l.tables) + l.flight + l.mem
    && Holds(s.mem, l.mem)
    && Holds(s.handed, l.flight)
    && WritesUpTo(s.hist, s.lastSeq)
    && Stacked(Segments(l))
    && (l.numbered ==> Numbered(s.hist))
    && (l.settled ==> Settles(s.hist))
  }

  /** The latest-value map is what a read at the last sequence number sees. */
  ghost predicate LatestInv(latest: map<string, string>, hist: seq<Write>, t: nat) {
    forall key :: LatestAt(latest, hist, t, key)
  }

  ghost predicate LatestAt(latest: map<string, string>, hist: seq<Write>, t: nat, key: string) {
    Expected(hist, key, t) == if key in latest then Some(latest[key]) else None
  }

  ghost predicate Compacting(s: Store, output: string) {
    s.slot == None && |s.paths| >= 2 && NewPath(s, output)
  }

  ghost predicate PhaseInv(s: Store, l: Layout)
    requires |l.tables| == |s.paths|
  {
    match s.phase
    case Ready => true
    case Reading => true
    case Draining(added) => added ==> s.slot == None
    case Merging(o) => Compacting(s, o)
    case Publishing(o) => Compacting(s, o) && TableOk(l.numbered, s.files, TmpName(o), l.tables[0] + l.tables[1])
    case Preparing(o) => Compacting(s, o) && TableOk(l.numbered, s.files, o, l.tables[0] + l.tables[1])
    case Swapping(o) =>
      Compacting(s, o) && TableOk(l.numbered, s.files, o, l.tables[0] + l.tables[1]) && s.manifestTmp == Some([o] + s.paths[2..])
    case Dropping(merged) => s.slot == None && forall p :: p in merged ==> p !in s.paths
  }

  /** Compaction keeps the list short. */
  predicate CountInv(s: Store) {
    !s.compactionFailed ==>
      |s.paths| < COMPACTION_TRIGGER + (if s.phase.Ready? || s.phase.Reading? || s.phase.Dropping? || s.phase == Draining(false) then 0 else 1)
  }

  /** Queues, paths, files and the phases of compaction. */
  ghost predicate ControlInv(s: Store, l: Layout) {
    && TablesOk(l.numbered, s.files, s.paths, l.tables)
    && PathsOk(s.paths, s.nextId)
    && FlightInv(s)
    && SlotInv(s)
    && s.manifest == s.paths + Listed(s)
    && PhaseInv(s, l)
    && CountInv(s)
  }

  /** The history and the layers in memory. */
  ghost predicate DataInv(s: Store, l: Layout) {
    HistInv(s, l) && LatestInv(s.latest, s.hist, s.lastSeq)
  }

  ghost predicate Inv(s: Store, l: Layout) {
    ControlInv(s, l) && DataInv(s, l)
  }

  predicate SameData(s: Store, s': Store) {
    s.hist == s'.hist && s.mem == s'.mem && s.handed == s'.handed && s.latest == s'.latest && s.lastSeq == s'.lastSeq
  }

  lemma DataKept(s: Store, s': Store, l: Layout)
    requires DataInv(s, l) && SameData(s, s')
    ensures DataInv(s', l)
  {
  }

  /** The writes that a process with only the disk would find in the tables of the manifest. */
  function Durable(s: Store, l: Layout): seq<Write> {
    Flat(l.tables) + if Listed(s) == [] then [] else l.flight
  }

  // ---- small facts ----

  lemma FlatAppend(tables: seq<seq<Write>>, ws: seq<Write>)
    ensures Flat(tables + [ws]) == Flat(tables) + ws
  {
    assert (tables + [ws])[..|tables|] == tables;
  }

  /** Joining the first two segments does not change the whole. */
  lemma {:induction false} FlatMerge(tables: seq<seq<Write>>)
    requires |tables| >= 2
    ensures Flat([tables[0] + tables[1]] + tables[2..]) == Flat(tables)
  {
    var merged := [tables[0] + tables[1]] + tables[2..];
    if |tables| == 2 {
      assert tables[..1][..0] == [];
      assert Flat(tables[..1]) == tables[0];
      assert merged == [] + [tables[0] + tables[1]];
      FlatAppend([], tables[0] + tables[1]);
    } else {
      var front := tables[..|tables| - 1];
      FlatMerge(front);
      assert merged[..|merged| - 1] == [front[0] + front[1]] + front[2..];
    }
  }

  /** Only the empty history fits in no entries. */
  lemma EmptyHolds(ws: seq<Write>)
    requires ws != []
    ensures !Holds(map[], ws)
  {
    assert !HoldsAt(map[], ws, ws[|ws| - 1].key);
  }

  lemma HeldStands(e: Entries, ws: seq<Write>)
    requires Holds(e, ws)
    ensures Stands(e, ws)
  {
    forall key ensures StandsAt(e, ws, key) {
      assert HoldsAt(e, ws, key);
    }
  }

  lemma NumberedAgree(ws: seq<Write>, key: string)
    requires Numbered(ws)
    ensures Agree(HistoryOf(ws, key))
  {
    HistoryFrom(ws, key);
  }

  lemma NumberedPart(all: seq<Write>, part: seq<Write>)
    requires Numbered(all) && forall w :: w in part ==> w in all
    ensures Numbered(part)
  {
  }

  /** Everything in the whole is in some segment. */
  lemma {:induction false} FlatMembers(tables: seq<seq<Write>>, w: Write)
    ensures w in Flat(tables) <==> exists i :: 0 <= i < |tables| && w in tables[i]
  {
    if tables != [] {
      var n := |tables| - 1;
      FlatMembers(tables[..n], w);
      if i :| 0 <= i < n && w in tables[..n][i] {
        assert w in tables[i];
      }
      if i :| 0 <= i < |tables| && w in tables[i] && i < n {
        assert w in tables[..n][i];
      }
    }
  }

  lemma FlatUnder(tables: seq<seq<Write>>)
    requires Stacked(tables) && tables != []
    ensures Stacked(tables[..|tables| - 1]) && Under(Flat(tables[..|tables| - 1]), tables[|tables| - 1])
  {
    var n := |tables| - 1;
    forall v, w | v in Flat(tables[..n]) && w in tables[n] ensures v.version.timestamp < w.version.timestamp {
      FlatMembers(tables[..n], v);
      var i :| 0 <= i < n && v in tables[..n][i];
      assert Under(tables[i], tables[n]);
    }
    forall i, j | 0 <= i < j < n ensures Under(tables[..n][i], tables[..n][j]) {
      assert Under(tables[i], tables[j]);
    }
  }

  /** A later segment hides an earlier one exactly when it has a visible version. */
  lemma NewestOver(a: seq<Write>, b: seq<Write>, key: string, t: nat)
    requires Under(a, b)
    ensures NewestVersion(a + b, key, t) == if NewestVersion(b, key, t).Some? then NewestVersion(b, key, t) else NewestVersion(a, key, t)
  {
    HistoryConcat(a, b, key);
    HistoryFrom(a, key);
    HistoryFrom(b, key);
    forall v, w | v in HistoryOf(a, key) && w in HistoryOf(b, key) ensures v.timestamp < w.timestamp {
      assert Write(key, v) in a && Write(key, w) in b;
    }
    BestConcat(HistoryOf(a, key), HistoryOf(b, key), t);
  }

  lemma TableReads(e: Entries, ws: seq<Write>, key: string, t: nat)
    requires Stands(e, ws) && Numbered(ws)
    ensures Best(VersionsOf(e, key), t) == NewestVersion(ws, key, t)
  {
    assert StandsAt(e, ws, key);
    NumberedAgree(ws, key);
    SameBest(HistoryOf(ws, key), VersionsOf(e, key), t);
  }

  /** The version that the tables of a path list give, newest table first. */
  function TablesSee(files: map<string, Entries>, paths: seq<string>, key: string, t: nat): Option<Version> {
    if paths == [] then None
    else
      var p := paths[|paths| - 1];
      var v := if p in files then Best(VersionsOf(files[p], key), t) else None;
      if v.Some? then v else TablesSee(files, paths[..|paths| - 1], key, t)
  }

  /** Reading a list of tables newest first finds the newest version in their segments taken together. */
  lemma {:induction false} TablesReadHistory(files: map<string, Entries>, paths: seq<string>, tables: seq<seq<Write>>, key: string, t: nat)
    requires TablesOk(true, files, paths, tables) && Stacked(tables) && Numbered(Flat(tables))
    ensures TablesSee(files, paths, key, t) == NewestVersion(Flat(tables), key, t)
  {
    if paths != [] {
      var n := |paths| - 1;
      var front, last := tables[..n], tables[n];
      assert TableOk(true, files, paths[n], last);
      FlatUnder(tables);
      NumberedPart(Flat(tables), last);
      NumberedPart(Flat(tables), Flat(front));
      TableReads(files[paths[n]], last, key, t);
      FrontTables(files, paths, tables);
      TablesReadHistory(files, paths[..n], front, key, t);
      NewestOver(Flat(front), last, key, t);
    }
  }

  lemma FrontTables(files: map<string, Entries>, paths: seq<string>, tables: seq<seq<Write>>)
    requires TablesOk(true, files, paths, tables) && paths != []
    ensures TablesOk(true, files, paths[..|paths| - 1], tables[..|paths| - 1])
  {
    var ps, ts := paths[..|paths| - 1], tables[..|paths| - 1];
    forall i | 0 <= i < |ps| ensures TableOk(true, files, ps[i], ts[i]) {
      assert TableOk(true, files, paths[i], tables[i]);
    }
  }
}
