/**
 The store thread and the flush worker as a step system (src/kv_store.cpp, src/flush_worker.cpp,
 src/manifest.cpp). Client calls hold the store's mutex; the worker does not, so its steps may come
 between any two file operations of a read that drains and compacts.
 */
module LsmStore {
  import opened Options
  import opened Mvcc
  import opened Compactor
  import opened TableNames

  const FLUSH_THRESHOLD: nat := 4 * 1024 * 1024
  const COMPACTION_TRIGGER: nat := 4
  const TIMESTAMP_BYTES: nat := 8

  datatype Task = Task(path: string, entries: Entries)

  /** Where the worker's loop stands: task popped, file written, manifest appended. */
  datatype Worker = Waiting | Writing(task: Task) | Listing(task: Task) | Reporting(task: Task)

  /** Where the thread that holds the store's mutex stands. */
  datatype Phase =
    | Ready
    | Draining(added: bool)
    | Merging(output: string)      // before Compactor::compact writes output.tmp
    | Publishing(output: string)   // before output.tmp is renamed
    | Preparing(output: string)    // before the new manifest is written to its temporary file
    | Swapping(output: string)     // before that file is renamed over the manifest
    | Dropping(merged: seq<string>) // before the merged tables are removed
    | Reading

  datatype Query = Query(key: string, time: nat)

  datatype Store = Store(
    latest: map<string, string>,
    mem: Entries,
    memBytes: nat,
    slot: Option<Entries>,
    paths: seq<string>,
    nextId: nat,
    lastSeq: nat,
    tasks: seq<Task>,
    worker: Worker,
    completions: seq<string>,
    files: map<string, Entries>,
    manifest: seq<string>,
    manifestTmp: Option<seq<string>>,
    phase: Phase,
    query: Query,
    versionBytes: nat,             // sizeof(Version)
    handed: Entries,               // what the worker was last given and has not been drained
    hist: seq<Write>,              // every write so far
    compactionFailed: bool)

  datatype Step =
    | Put(key: string, value: string, logged: bool)
    | Del(key: string, logged: bool)
    | BeginRead(key: string, time: nat)
    | Poll
    | EndPoll
    | Merge(out: Entries)
    | MergeFails(left: Option<Entries>)
    | Publish(ok: bool)
    | Prepare(ok: bool)
    | Swap(ok: bool)
    | Drop(ok: bool)
    | EndRead
    | WorkerTakes
    | WorkerWrites(ok: bool, left: Option<Entries>)
    | WorkerLists(ok: bool)
    | WorkerReports

  // ---- writes ----

  function Bytes(s: Store, w: Write): nat {
    |w.key| + (if w.version.value.Some? then |w.version.value.value| else 0) + TIMESTAMP_BYTES + s.versionBytes
  }

  function UpdateLatest(latest: map<string, string>, w: Write): map<string, string> {
    if w.version.value.Some? then latest[w.key := w.version.value.value] else latest - {w.key}
  }

  function Record(s: Store, w: Write): Store {
    s.(latest := UpdateLatest(s.latest, w),
       mem := Push(s.mem, w.key, w.version),
       memBytes := s.memBytes + Bytes(s, w),
       hist := s.hist + [w])
  }

  /** The memtable becomes a task; the slot stays occupied by a moved-from, empty map. */
  function MaybeFlush(s: Store): Store {
    if s.memBytes < FLUSH_THRESHOLD || s.slot.Some? then s
    else if s.mem == map[] then s.(memBytes := 0)
    else
      s.(mem := map[], memBytes := 0, slot := Some(map[]), nextId := s.nextId + 1,
         tasks := s.tasks + [Task(FlushName(s.nextId), s.mem)], handed := s.mem)
  }

  /** A sequence number is taken; if the log accepts the record, so do map and memtable. */
  function AfterWrite(s: Store, key: string, value: Option<string>, logged: bool): Store {
    var s1 := s.(lastSeq := s.lastSeq + 1);
    if logged then MaybeFlush(Record(s1, Write(key, Version(s1.lastSeq, value)))) else s1
  }

  function DoPut(s: Store, key: string, value: string, logged: bool): Store {
    if s.phase == Ready then AfterWrite(s, key, Some(value), logged) else s
  }

  function DoDel(s: Store, key: string, logged: bool): Store {
    if s.phase == Ready && key in s.latest then AfterWrite(s, key, None, logged) else s
  }

  // ---- reads: drain, compact, look up ----

  function DoBeginRead(s: Store, key: string, time: nat): Store {
    if s.phase == Ready then s.(phase := Draining(false), query := Query(key, time)) else s
  }

  function DoEndRead(s: Store): Store {
    if s.phase == Reading then s.(phase := Ready) else s
  }

  function DoPoll(s: Store): Store {
    if !s.phase.Draining? || s.completions == [] then s
    else
      var p := s.completions[0];
      var s1 := s.(completions := s.completions[1..], slot := None, handed := map[]);
      if p in s.paths then s1 else s1.(paths := s.paths + [p], phase := Draining(true))
  }

  lemma FreshIdExists(paths: seq<string>, next: nat)
    ensures exists id: nat :: IsFreshId(paths, next, id)
  {
    var b := UnusedName((set p | p in paths), next);
    LeastFresh(paths, next, b);
  }

  ghost predicate IsFreshId(paths: seq<string>, next: nat, id: nat) {
    id >= next && CompactName(id) !in paths && forall j: nat :: next <= j < id ==> CompactName(j) in paths
  }

  lemma {:induction false} LeastFresh(paths: seq<string>, next: nat, b: nat)
    requires b >= next && CompactName(b) !in paths
    ensures exists id: nat :: IsFreshId(paths, next, id)
    decreases b
  {
    if j: nat :| next <= j < b && CompactName(j) !in paths {
      LeastFresh(paths, next, j);
    } else {
      assert IsFreshId(paths, next, b);
    }
  }

  /** The id at which the search for an unused output name stops. */
  ghost function FreshId(paths: seq<string>, next: nat): (id: nat)
    ensures IsFreshId(paths, next, id)
  {
    FreshIdExists(paths, next);
    var id: nat :| IsFreshId(paths, next, id);
    id
  }

  ghost function DoEndPoll(s: Store): Store {
    if !s.phase.Draining? || s.completions != [] then s
    else if !s.phase.added || |s.paths| < COMPACTION_TRIGGER then s.(phase := Reading)
    else if s.paths[0] == s.paths[1] then
      var updated := s.paths[..1] + s.paths[2..];
      s.(paths := updated, manifest := updated, phase := Reading)
    else
      var id := FreshId(s.paths, s.nextId);
      s.(nextId := id + 1, phase := Merging(CompactName(id)))
  }

  function Abandon(s: Store): Store {
    s.(phase := Reading, compactionFailed := true)
  }

  ghost function DoMerge(s: Store, out: Entries): Store {
    if !(s.phase.Merging? && |s.paths| >= 2 && s.paths[0] in s.files && s.paths[1] in s.files
         && IsCompaction(s.files[s.paths[0]], s.files[s.paths[1]], out)) then s
    else s.(files := s.files[TmpName(s.phase.output) := out], phase := Publishing(s.phase.output))
  }

  /** A failed write may leave anything in its file, or no file. */
  function Leave(files: map<string, Entries>, path: string, left: Option<Entries>): map<string, Entries> {
    match left
    case Some(e) => files[path := e]
    case None => files - {path}
  }

  function DoMergeFails(s: Store, left: Option<Entries>): Store {
    if !s.phase.Merging? then s
    else Abandon(s.(files := Leave(s.files, TmpName(s.phase.output), left)))
  }

  function DoPublish(s: Store, ok: bool): Store {
    if !s.phase.Publishing? then s else
    var tmp := TmpName(s.phase.output);
    if ok && tmp in s.files
    then s.(files := s.files[s.phase.output := s.files[tmp]] - {tmp}, phase := Preparing(s.phase.output))
    else Abandon(s.(files := s.files - {tmp}))
  }

  function DoPrepare(s: Store, ok: bool): Store {
    if !s.phase.Preparing? || |s.paths| < 2 then s
    else if ok then s.(manifestTmp := Some([s.phase.output] + s.paths[2..]), phase := Swapping(s.phase.output))
    else Abandon(s.(files := s.files - {s.phase.output}))
  }

  function DoSwap(s: Store, ok: bool): Store {
    if !s.phase.Swapping? || s.manifestTmp == None || |s.paths| < 2 then s
    else if ok
    then s.(manifest := s.manifestTmp.value, manifestTmp := None,
            paths := [s.phase.output] + s.paths[2..], phase := Dropping(s.paths[..2]))
    else Abandon(s.(manifestTmp := None, files := s.files - {s.phase.output}))
  }

  /** Removing a merged table may fail; nothing depends on it. */
  function DoDrop(s: Store, ok: bool): Store {
    if !s.phase.Dropping? then s
    else if s.phase.merged == [] then s.(phase := Reading)
    else s.(files := if ok then s.files - {s.phase.merged[0]} else s.files, phase := Dropping(s.phase.merged[1..]))
  }

  /** The tables of a path list, newest first; a file that cannot be opened holds nothing. */
  function TablesAt(files: map<string, Entries>, paths: seq<string>, key: string, t: nat): LookupResult {
    if paths == [] then NotFound
    else
      var p := paths[|paths| - 1];
      var r := if p in files then BestResult(VersionsOf(files[p], key), t) else NotFound;
      if r != NotFound then r else TablesAt(files, paths[..|paths| - 1], key, t)
  }

  /** What get_at returns once it has drained: memtable, slot, then tables. */
  function Get(s: Store, key: string, t: nat): Option<string> {
    var m := Newest(VersionsOf(s.mem, key), t);
    if m != NotFound then Answer(m)
    else
      var i := if s.slot.Some? then Newest(VersionsOf(s.slot.value, key), t) else NotFound;
      if i != NotFound then Answer(i) else Answer(TablesAt(s.files, s.paths, key, t))
  }

  /** What a process that only has the disk would find in the tables of the manifest. */
  function OnDisk(s: Store, key: string, t: nat): LookupResult {
    TablesAt(s.files, s.manifest, key, t)
  }

  // ---- the worker ----

  function DoWorkerTakes(s: Store): Store {
    if s.worker != Waiting || s.tasks == [] then s
    else s.(tasks := s.tasks[1..], worker := Writing(s.tasks[0]))
  }

  function DoWorkerWrites(s: Store, ok: bool, left: Option<Entries>): Store {
    if !s.worker.Writing? then s
    else if ok then s.(files := s.files[s.worker.task.path := s.worker.task.entries], worker := Listing(s.worker.task))
    else s.(files := Leave(s.files, s.worker.task.path, left), worker := Waiting)
  }

  function DoWorkerLists(s: Store, ok: bool): Store {
    if !s.worker.Listing? then s
    else if !ok then s.(worker := Waiting)
    else
      var p := s.worker.task.path;
      s.(manifest := if p in s.manifest then s.manifest else s.manifest + [p], worker := Reporting(s.worker.task))
  }

  function DoWorkerReports(s: Store): Store {
    if !s.worker.Reporting? then s
    else s.(completions := s.completions + [s.worker.task.path], worker := Waiting)
  }

  ghost function Next(s: Store, step: Step): Store {
    match step
    case Put(key, value, logged) => DoPut(s, key, value, logged)
    case Del(key, logged) => DoDel(s, key, logged)
    case BeginRead(key, time) => DoBeginRead(s, key, time)
    case Poll => DoPoll(s)
    case EndPoll => DoEndPoll(s)
    case Merge(out) => DoMerge(s, out)
    case MergeFails(left) => DoMergeFails(s, left)
    case Publish(ok) => DoPublish(s, ok)
    case Prepare(ok) => DoPrepare(s, ok)
    case Swap(ok) => DoSwap(s, ok)
    case Drop(ok) => DoDrop(s, ok)
    case EndRead => DoEndRead(s)
    case WorkerTakes => DoWorkerTakes(s)
    case WorkerWrites(ok, left) => DoWorkerWrites(s, ok, left)
    case WorkerLists(ok) => DoWorkerLists(s, ok)
    case WorkerReports => DoWorkerReports(s)
  }

  // ---- sessions ----

  function Empty(versionBytes: nat): Store {
    Store(map[], map[], 0, None, [], 0, 0, [], Waiting, [], map[], [], None, Ready, Query("", 0),
          versionBytes, map[], [], false)
  }

  /** The store after log replay has refilled the memtable; the manifest is empty. */
  function Recovered(versionBytes: nat, ws: seq<Write>): Store {
    if ws == [] then Empty(versionBytes)
    else
      var s := Record(Recovered(versionBytes, ws[..|ws| - 1]), ws[|ws| - 1]);
      s.(lastSeq := if ws[|ws| - 1].version.timestamp > s.lastSeq then ws[|ws| - 1].version.timestamp else s.lastSeq)
  }

  /** A session: what was recovered from the log, then steps of clients and worker. */
  ghost function Run(versionBytes: nat, recovered: seq<Write>, steps: seq<Step>): Store {
    if steps == [] then Recovered(versionBytes, recovered)
    else Next(Run(versionBytes, recovered, steps[..|steps| - 1]), steps[|steps| - 1])
  }
}
