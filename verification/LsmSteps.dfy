/** Every step of clients, compaction and worker keeps the invariant. */
module LsmSteps {
  import opened Options
  import opened Mvcc
  import opened Compactor
  import opened TableNames
  import opened LsmStore
  import opened LsmInvariant

  // ---- writes ----

  lemma HistoryAppend(ws: seq<Write>, w: Write, key: string)
    ensures HistoryOf(ws + [w], key) == HistoryOf(ws, key) + if w.key == key then [w.version] else []
  {
    assert (ws + [w])[..|ws|] == ws;
  }

  lemma {:induction false} NewestUpTo(ws: seq<Write>, key: string, t: nat, u: nat)
    requires WritesUpTo(ws, t) && t <= u
    ensures Newest(HistoryOf(ws, key), u) == Newest(HistoryOf(ws, key), t)
  {
    if ws != [] {
      NewestUpTo(ws[..|ws| - 1], key, t, u);
      NewestConcat(HistoryOf(ws[..|ws| - 1], key), if ws[|ws| - 1].key == key then [ws[|ws| - 1].version] else [], t);
      NewestConcat(HistoryOf(ws[..|ws| - 1], key), if ws[|ws| - 1].key == key then [ws[|ws| - 1].version] else [], u);
    }
  }

  /** The latest-value map follows the history, whatever the order of timestamps. */
  lemma RecordLatest(latest: map<string, string>, hist: seq<Write>, t: nat, w: Write, u: nat, key: string)
    requires LatestAt(latest, hist, t, key) && WritesUpTo(hist, t) && t <= u && w.version.timestamp <= u
    ensures LatestAt(UpdateLatest(latest, w), hist + [w], u, key)
  {
    var h := HistoryOf(hist, key);
    HistoryAppend(hist, w, key);
    NewestUpTo(hist, key, t, u);
    if w.key == key {
      assert (h + [w.version])[..|h|] == h;
    } else {
      assert h + [] == h;
    }
  }

  lemma RecordLatestAll(latest: map<string, string>, hist: seq<Write>, t: nat, w: Write, u: nat)
    requires LatestInv(latest, hist, t) && WritesUpTo(hist, t) && t <= u && w.version.timestamp <= u
    ensures LatestInv(UpdateLatest(latest, w), hist + [w], u)
  {
    forall key ensures LatestAt(UpdateLatest(latest, w), hist + [w], u, key) {
      assert LatestAt(latest, hist, t, key);
      RecordLatest(latest, hist, t, w, u, key);
    }
  }

  /** A new sequence number alone changes nothing that is read. */
  lemma BumpSeq(s: Store, l: Layout, t: nat)
    requires Inv(s, l) && t >= s.lastSeq
    ensures Inv(s.(lastSeq := t), l)
  {
    forall key ensures LatestAt(s.latest, s.hist, t, key) {
      assert LatestAt(s.latest, s.hist, s.lastSeq, key);
      NewestUpTo(s.hist, key, s.lastSeq, t);
    }
  }

  // ---- a newer write keeps order, numbering and settledness ----

  lemma NewerThanAll(ws: seq<Write>, t: nat, w: Write)
    requires WritesUpTo(ws, t) && t < w.version.timestamp
    ensures forall v :: v in ws ==> v.version.timestamp < w.version.timestamp
  {
  }

  lemma NumberedAppend(ws: seq<Write>, t: nat, w: Write)
    requires Numbered(ws) && WritesUpTo(ws, t) && t < w.version.timestamp
    ensures Numbered(ws + [w])
  {
    NewerThanAll(ws, t, w);
  }

  lemma SettledAppend(vs: seq<Version>, v: Version)
    requires Settled(vs) && forall x :: x in vs ==> x.timestamp < v.timestamp
    ensures Settled(vs + [v])
  {
    var more := vs + [v];
    forall i, j | 0 <= i < j < |more| && more[j].timestamp < more[i].timestamp ensures PushedAgain(more, more[i].timestamp, j) {
      assert more[i] == vs[i] && vs[i] in vs;
      assert PushedAgain(vs, vs[i].timestamp, j);
      var k :| j < k < |vs| && vs[k].timestamp == vs[i].timestamp;
      assert more[k] == vs[k];
    }
  }

  lemma SettlesAppend(ws: seq<Write>, t: nat, w: Write)
    requires Settles(ws) && WritesUpTo(ws, t) && t < w.version.timestamp
    ensures Settles(ws + [w])
  {
    NewerThanAll(ws, t, w);
    forall key ensures Settled(HistoryOf(ws + [w], key)) {
      assert Settled(HistoryOf(ws, key));
      HistoryAppend(ws, w, key);
      HistoryFrom(ws, key);
      if w.key == key {
        SettledAppend(HistoryOf(ws, key), w.version);
      } else {
        assert HistoryOf(ws, key) + [] == HistoryOf(ws, key);
      }
    }
  }

  lemma StackedAppend(l: Layout, all: seq<Write>, t: nat, w: Write)
    requires Stacked(Segments(l)) && WritesUpTo(all, t) && t < w.version.timestamp
    requires all == Flat(l.tables) + l.flight + l.mem
    ensures Stacked(Segments(l.(mem := l.mem + [w])))
  {
    var segs, l' := Segments(l), l.(mem := l.mem + [w]);
    var segs' := Segments(l');
    var n := |l.tables| + 1;
    NewerThanAll(all, t, w);
    forall i, j | 0 <= i < j < |segs'| ensures Under(segs'[i], segs'[j]) {
      assert Under(segs[i], segs[j]) && segs'[i] == segs[i];
      if j == n {
        forall v: Write, x: Write | v in segs[i] && x in segs'[j] ensures v.version.timestamp < x.version.timestamp {
          if i < |l.tables| { FlatMembers(l.tables, v); assert v in l.tables[i]; }
          assert v in all;
        }
      }
    }
  }

  lemma RecordHist(s: Store, l: Layout, w: Write)
    requires HistInv(s, l) && s.lastSeq < w.version.timestamp
    ensures HistInv(Record(s, w).(lastSeq := w.version.timestamp), l.(mem := l.mem + [w]))
  {
    PushHolds(s.mem, l.mem, w);
    assert Flat(l.tables) + l.flight + (l.mem + [w]) == s.hist + [w];
    assert WritesUpTo(s.hist + [w], w.version.timestamp);
    StackedAppend(l, s.hist, s.lastSeq, w);
    if l.numbered { NumberedAppend(s.hist, s.lastSeq, w); }
    if l.settled { SettlesAppend(s.hist, s.lastSeq, w); }
  }

  lemma RecordInv(s: Store, l: Layout, w: Write)
    requires Inv(s, l) && s.lastSeq < w.version.timestamp
    ensures Inv(Record(s, w).(lastSeq := w.version.timestamp), l.(mem := l.mem + [w]))
  {
    RecordHist(s, l, w);
    RecordLatestAll(s.latest, s.hist, s.lastSeq, w, w.version.timestamp);
  }

  lemma MorePaths(paths: seq<string>, next: nat, more: nat)
    requires PathsOk(paths, next) && next <= more
    ensures PathsOk(paths, more)
  {
    forall i | 0 <= i < |paths| ensures Named(paths[i], more) {
      NamedMore(paths[i], next, more);
    }
  }

  /** No listed path is named like the next file. */
  lemma NextPathsFresh(paths: seq<string>, next: nat)
    requires PathsOk(paths, next)
    ensures FlushName(next) !in paths && CompactName(next) !in paths
  {
    forall i | 0 <= i < |paths| ensures paths[i] != FlushName(next) && paths[i] != CompactName(next) {
      NextNameFresh(paths[i], next);
    }
  }

  /** The memtable's segment moves to the worker. */
  lemma StackedFlush(l: Layout)
    requires Stacked(Segments(l)) && l.flight == []
    ensures Stacked(Segments(l.(flight := l.mem, mem := [])))
  {
    var segs, segs', n := Segments(l), Segments(l.(flight := l.mem, mem := [])), |l.tables|;
    forall i, j | 0 <= i < j < |segs'| ensures Under(segs'[i], segs'[j]) {
      if j < n {
        assert Under(segs[i], segs[j]);
      } else if j == n {
        assert Under(segs[i], segs[n + 1]);
      }
    }
  }

  lemma FlushedHist(s: Store, l: Layout)
    requires HistInv(s, l) && s.handed == map[]
    ensures HistInv(s.(mem := map[], handed := s.mem), l.(flight := l.mem, mem := []))
  {
    if l.flight != [] { EmptyHolds(l.flight); }
    assert Flat(l.tables) + l.mem + [] == s.hist;
    StackedFlush(l);
    forall key ensures HoldsAt(map[], [], key) {
    }
  }

  lemma FlushInv(s: Store, l: Layout) returns (l': Layout)
    requires Inv(s, l) && s.phase == Ready
    ensures Inv(MaybeFlush(s), l') && SameFlags(l, l')
    ensures Durable(MaybeFlush(s), l') == Durable(s, l)
  {
    l' := l;
    if s.memBytes >= FLUSH_THRESHOLD && s.slot == None && s.mem != map[] {
      l' := l.(flight := l.mem, mem := []);
      FlushedHist(s, l);
      MorePaths(s.paths, s.nextId, s.nextId + 1);
      NextPathsFresh(s.paths, s.nextId);
      assert Named(FlushName(s.nextId), s.nextId + 1);
    }
  }

  predicate SameFlags(l: Layout, l': Layout) {
    l.numbered == l'.numbered && l.settled == l'.settled
  }

  lemma WrittenInv(s: Store, l: Layout, key: string, value: Option<string>, logged: bool) returns (l': Layout)
    requires Inv(s, l) && s.phase == Ready
    ensures var s' := AfterWrite(s, key, value, logged); Inv(s', l') && Durable(s', l') == Durable(s, l) && SameFlags(l, l')
  {
    if logged {
      var w := Write(key, Version(s.lastSeq + 1, value));
      RecordInv(s, l, w);
      assert Record(s, w).(lastSeq := s.lastSeq + 1) == Record(s.(lastSeq := s.lastSeq + 1), w);
      l' := FlushInv(Record(s.(lastSeq := s.lastSeq + 1), w), l.(mem := l.mem + [w]));
    } else {
      l' := l;
      BumpSeq(s, l, s.lastSeq + 1);
    }
  }

  // ---- draining ----

  /** A drained table joins the list. */
  lemma DrainedTables(s: Store, l: Layout, p: string)
    requires TablesOk(l.numbered, s.files, s.paths, l.tables) && TableOk(l.numbered, s.files, p, l.flight)
    ensures TablesOk(l.numbered, s.files, s.paths + [p], l.tables + [l.flight])
  {
    forall i | 0 <= i < |s.paths| + 1 ensures TableOk(l.numbered, s.files, (s.paths + [p])[i], (l.tables + [l.flight])[i]) {
      if i < |s.paths| {
        assert TableOk(l.numbered, s.files, s.paths[i], l.tables[i]);
      }
    }
  }

  /** The worker's segment becomes the newest table. */
  function Drained(l: Layout): Layout {
    l.(tables := l.tables + [l.flight], flight := [])
  }

  lemma StackedDrain(l: Layout)
    requires Stacked(Segments(l))
    ensures Stacked(Segments(Drained(l)))
  {
    var segs, segs', n := Segments(l), Segments(Drained(l)), |l.tables|;
    forall i, j | 0 <= i < j < |segs'| ensures Under(segs'[i], segs'[j]) {
      if j <= n {
        assert Under(segs[i], segs[j]);
      } else if j == n + 2 && i <= n {
        assert Under(segs[i], segs[n + 1]);
      }
    }
  }

  lemma DrainedHist(s: Store, l: Layout)
    requires HistInv(s, l)
    ensures HistInv(s.(handed := map[]), Drained(l))
  {
    FlatAppend(l.tables, l.flight);
    assert Flat(l.tables) + l.flight + l.mem == Flat(l.tables + [l.flight]) + [] + l.mem;
    StackedDrain(l);
    forall key ensures HoldsAt(map[], [], key) {
    }
  }

  lemma DrainedPaths(paths: seq<string>, next: nat, p: string)
    requires PathsOk(paths, next) && p !in paths && Named(p, next)
    ensures PathsOk(paths + [p], next)
  {
  }

  lemma BeginReadInv(s: Store, l: Layout, key: string, time: nat)
    requires ControlInv(s, l)
    ensures ControlInv(DoBeginRead(s, key, time), l) && SameData(s, DoBeginRead(s, key, time)) && Durable(DoBeginRead(s, key, time), l) == Durable(s, l)
  {
  }

  lemma EndReadInv(s: Store, l: Layout)
    requires ControlInv(s, l)
    ensures ControlInv(DoEndRead(s), l) && SameData(s, DoEndRead(s)) && Durable(DoEndRead(s), l) == Durable(s, l)
  {
    if s.phase == Reading { PhaseChanges(s, l, Ready, s.nextId); }
  }

  /** After a completion is drained the worker is idle and the slot free. */
  lemma PolledFlags(s: Store, p: string)
    requires FlightInv(s) && SlotInv(s) && CountInv(s) && s.manifest == s.paths + Listed(s)
    requires s.phase.Draining? && (s.phase.added ==> s.slot == None) && s.completions != [] && p == s.completions[0]
    ensures s.completions == [p] && NewPath(s, p) && p in s.files && s.files[p] == s.handed
    ensures s.worker == Waiting && s.tasks == []
    ensures s.manifest == s.paths + [p] && CountInv(s.(paths := s.paths + [p], phase := Draining(true)))
  {
  }

  /** The store after the one completed flush has been taken over. */
  function Polled(s: Store, p: string): Store {
    s.(completions := [], slot := None, handed := map[], paths := s.paths + [p], phase := Draining(true))
  }

  lemma PolledInv(s: Store, l: Layout, p: string)
    requires Inv(s, l) && s.phase.Draining? && |s.completions| > 0 && p == s.completions[0]
    ensures Inv(Polled(s, p), Drained(l))
  {
    PolledFlags(s, p);
    HeldStands(s.handed, l.flight);
    DrainedTables(s, l, p);
    DrainedPaths(s.paths, s.nextId, p);
    DrainedHist(s, l);
  }

  lemma PolledDurable(s: Store, l: Layout, p: string)
    requires Inv(s, l) && s.phase.Draining? && |s.completions| > 0 && p == s.completions[0]
    ensures DoPoll(s) == Polled(s, p)
    ensures Durable(Polled(s, p), Drained(l)) == Durable(s, l)
  {
    PolledFlags(s, p);
    FlatAppend(l.tables, l.flight);
    assert Flat(l.tables + [l.flight]) + [] == Flat(l.tables) + l.flight;
  }

  lemma PollInv(s: Store, l: Layout) returns (l': Layout)
    requires Inv(s, l)
    ensures Inv(DoPoll(s), l') && Durable(DoPoll(s), l') == Durable(s, l) && SameFlags(l, l')
  {
    l' := l;
    if s.phase.Draining? && s.completions != [] {
      l' := Drained(l);
      PolledInv(s, l, s.completions[0]);
      PolledDurable(s, l, s.completions[0]);
    }
  }

  /** Only the phase and the next id change. */
  lemma PhaseChanges(s: Store, l: Layout, phase: Phase, next: nat)
    requires ControlInv(s, l) && s.nextId <= next
    requires PhaseInv(s.(phase := phase, nextId := next), l) && CountInv(s.(phase := phase))
    ensures ControlInv(s.(phase := phase, nextId := next), l)
  {
    MorePaths(s.paths, s.nextId, next);
    assert FlightInv(s.(phase := phase, nextId := next)) by { FlightLater(s, phase, next); }
  }

  lemma FlightLater(s: Store, phase: Phase, next: nat)
    requires FlightInv(s) && s.nextId <= next
    ensures FlightInv(s.(phase := phase, nextId := next))
  {
    var s' := s.(phase := phase, nextId := next);
    forall p | NewPath(s, p) ensures NewPath(s', p) {
      NamedMore(p, s.nextId, next);
    }
  }

  lemma StartsMerging(s: Store, l: Layout)
    requires ControlInv(s, l) && s.phase.Draining? && s.completions == [] && s.phase.added && |s.paths| >= COMPACTION_TRIGGER
    ensures DoEndPoll(s) == s.(phase := Merging(CompactName(s.nextId)), nextId := s.nextId + 1)
    ensures PhaseInv(DoEndPoll(s), l) && CountInv(DoEndPoll(s))
  {
    NextPathsFresh(s.paths, s.nextId);
    assert FreshId(s.paths, s.nextId) == s.nextId;
    assert Named(CompactName(s.nextId), s.nextId + 1);
  }

  lemma EndPollInv(s: Store, l: Layout)
    requires ControlInv(s, l)
    ensures ControlInv(DoEndPoll(s), l) && SameData(s, DoEndPoll(s)) && Durable(DoEndPoll(s), l) == Durable(s, l)
  {
    if s.phase.Draining? && s.completions == [] {
      if s.phase.added && |s.paths| >= COMPACTION_TRIGGER {
        StartsMerging(s, l);
        PhaseChanges(s, l, Merging(CompactName(s.nextId)), s.nextId + 1);
      } else {
        PhaseChanges(s, l, Reading, s.nextId);
      }
    }
  }

  // ---- compaction, one file operation at a time ----

  /** Files other than the listed tables may change freely. */
  lemma TablesKept(s: Store, l: Layout, files: map<string, Entries>)
    requires TablesOk(l.numbered, s.files, s.paths, l.tables)
    requires forall p :: p in s.paths ==> p in files && files[p] == s.files[p]
    ensures TablesOk(l.numbered, files, s.paths, l.tables)
  {
    forall i | 0 <= i < |s.paths| ensures TableOk(l.numbered, files, s.paths[i], l.tables[i]) {
      assert TableOk(l.numbered, s.files, s.paths[i], l.tables[i]);
      assert s.paths[i] in s.paths;
    }
  }

  /** With nothing outstanding, files that are not listed and the phase change. */
  lemma FilesChange(s: Store, l: Layout, files: map<string, Entries>, phase: Phase)
    requires ControlInv(s, l) && s.slot == None
    requires forall p :: p in s.paths ==> p in files && files[p] == s.files[p]
    requires PhaseInv(s.(files := files, phase := phase), l) && CountInv(s.(files := files, phase := phase))
    ensures ControlInv(s.(files := files, phase := phase), l)
  {
    var s' := s.(files := files, phase := phase);
    assert TablesOk(l.numbered, files, s.paths, l.tables) by { TablesKept(s, l, files); }
    assert Quiet(s);
    assert FlightInv(s');
    assert SlotInv(s');
  }

  lemma ListedThere(s: Store, l: Layout)
    requires TablesOk(l.numbered, s.files, s.paths, l.tables)
    ensures forall p :: p in s.paths ==> p in s.files
  {
    forall p | p in s.paths ensures p in s.files {
      var i :| 0 <= i < |s.paths| && s.paths[i] == p;
      assert TableOk(l.numbered, s.files, s.paths[i], l.tables[i]);
    }
  }

  lemma TmpNotListed(s: Store, p: string)
    requires PathsOk(s.paths, s.nextId)
    ensures TmpName(p) !in s.paths
  {
    if TmpName(p) in s.paths {
      var i :| 0 <= i < |s.paths| && s.paths[i] == TmpName(p);
      TmpIsNoTable(s.paths[i], s.nextId);
    }
  }

  /** A merge of the versions of two segments has the versions of both. */
  lemma MergedMembers(e0: Entries, e1: Entries, out: Entries, a: seq<Write>, b: seq<Write>, key: string)
    requires IsCompaction(e0, e1, out) && Stands(e0, a) && Stands(e1, b) && Numbered(a + b)
    ensures StandsAt(out, a + b, key)
  {
    var all := VersionsOf(e0, key) + VersionsOf(e1, key);
    assert StandsAt(e0, a, key) && StandsAt(e1, b, key);
    HistoryConcat(a, b, key);
    NumberedAgree(a + b, key);
    assert forall v :: v in all <==> v in HistoryOf(a + b, key);
    MergeKeepsReads(all, VersionsOf(out, key), 0);
  }

  /** The merged table stands for the first two segments. */
  lemma MergedStands(s: Store, l: Layout, out: Entries)
    requires l.numbered && TablesOk(l.numbered, s.files, s.paths, l.tables) && HistInv(s, l) && |s.paths| >= 2
    requires s.paths[0] in s.files && s.paths[1] in s.files
    requires IsCompaction(s.files[s.paths[0]], s.files[s.paths[1]], out)
    ensures Stands(out, l.tables[0] + l.tables[1])
  {
    assert TableOk(l.numbered, s.files, s.paths[0], l.tables[0]) && TableOk(l.numbered, s.files, s.paths[1], l.tables[1]);
    var both := l.tables[0] + l.tables[1];
    forall w | w in both ensures w in s.hist {
      FlatMembers(l.tables, w);
      assert w in l.tables[0] || w in l.tables[1];
    }
    NumberedPart(s.hist, both);
    forall key ensures StandsAt(out, both, key) {
      MergedMembers(s.files[s.paths[0]], s.files[s.paths[1]], out, l.tables[0], l.tables[1], key);
    }
  }

  lemma MergeInv(s: Store, l: Layout, out: Entries)
    requires Inv(s, l)
    ensures ControlInv(DoMerge(s, out), l) && SameData(s, DoMerge(s, out)) && Durable(DoMerge(s, out), l) == Durable(s, l)
  {
    if s.phase.Merging? && DoMerge(s, out) != s {
      assert l.numbered ==> Stands(out, l.tables[0] + l.tables[1]) by {
        if l.numbered { MergedStands(s, l, out); }
      }
      MergeControl(s, l, out);
    }
  }

  lemma MergeControl(s: Store, l: Layout, out: Entries)
    requires ControlInv(s, l) && s.phase.Merging? && (l.numbered ==> Stands(out, l.tables[0] + l.tables[1]))
    ensures ControlInv(DoMerge(s, out), l)
  {
    var o := s.phase.output;
    TmpNotListed(s, o);
    if DoMerge(s, out) != s {
      assert forall p :: p in s.paths ==> p in s.files by { ListedThere(s, l); }
      FilesChange(s, l, s.files[TmpName(o) := out], Publishing(o));
    }
  }

  lemma MergeFailsInv(s: Store, l: Layout, left: Option<Entries>)
    requires ControlInv(s, l)
    ensures ControlInv(DoMergeFails(s, left), l) && SameData(s, DoMergeFails(s, left)) && Durable(DoMergeFails(s, left), l) == Durable(s, l)
  {
    if s.phase.Merging? {
      TmpNotListed(s, s.phase.output);
      TablesKept(s, l, DoMergeFails(s, left).files);
    }
  }

  lemma PublishInv(s: Store, l: Layout, ok: bool)
    requires ControlInv(s, l)
    ensures ControlInv(DoPublish(s, ok), l) && SameData(s, DoPublish(s, ok)) && Durable(DoPublish(s, ok), l) == Durable(s, l)
  {
    if s.phase.Publishing? {
      var o := s.phase.output;
      TmpNotListed(s, o);
      TmpIsNoTable(o, s.nextId);
      TablesKept(s, l, DoPublish(s, ok).files);
    }
  }

  lemma PrepareInv(s: Store, l: Layout, ok: bool)
    requires ControlInv(s, l)
    ensures ControlInv(DoPrepare(s, ok), l) && SameData(s, DoPrepare(s, ok)) && Durable(DoPrepare(s, ok), l) == Durable(s, l)
  {
    if s.phase.Preparing? && !ok {
      TablesKept(s, l, DoPrepare(s, ok).files);
    }
  }

  /** The first two segments joined. */
  function Joined(l: Layout): Layout
    requires |l.tables| >= 2
  {
    l.(tables := [l.tables[0] + l.tables[1]] + l.tables[2..])
  }

  lemma JoinedData(s: Store, l: Layout)
    requires DataInv(s, l) && |l.tables| >= 2
    ensures DataInv(s, Joined(l)) && Durable(s, Joined(l)) == Durable(s, l)
  {
    FlatMerge(l.tables);
    StackedMerge(l);
  }

  lemma SwapControl(s: Store, l: Layout)
    requires ControlInv(s, l) && s.phase.Swapping?
    ensures |l.tables| >= 2 && ControlInv(DoSwap(s, true), Joined(l)) && SameData(s, DoSwap(s, true))
    ensures Durable(DoSwap(s, true), Joined(l)) == Durable(s, Joined(l))
  {
    SwappedTables(s, l);
    SwappedPaths(s);
  }

  lemma SwapFailsControl(s: Store, l: Layout)
    requires ControlInv(s, l) && s.phase.Swapping?
    ensures ControlInv(DoSwap(s, false), l) && SameData(s, DoSwap(s, false)) && Durable(DoSwap(s, false), l) == Durable(s, l)
  {
    TablesKept(s, l, DoSwap(s, false).files);
  }

  lemma SwapInv(s: Store, l: Layout, ok: bool) returns (l': Layout)
    requires Inv(s, l)
    ensures ControlInv(DoSwap(s, ok), l') && DataInv(s, l') && SameData(s, DoSwap(s, ok)) && SameFlags(l, l')
    ensures Durable(DoSwap(s, ok), l') == Durable(s, l)
  {
    l' := l;
    if s.phase.Swapping? {
      if ok {
        SwapControl(s, l);
        JoinedData(s, l);
        l' := Joined(l);
      } else {
        SwapFailsControl(s, l);
      }
    }
  }

  lemma StackedMerge(l: Layout)
    requires Stacked(Segments(l)) && |l.tables| >= 2
    ensures Stacked(Segments(Joined(l)))
  {
    var segs, segs' := Segments(l), Segments(Joined(l));
    forall i, j | 0 <= i < j < |segs'| ensures Under(segs'[i], segs'[j]) {
      assert segs'[j] == segs[j + 1];
      if i == 0 {
        assert Under(segs[0], segs[j + 1]) && Under(segs[1], segs[j + 1]);
      } else {
        assert Under(segs[i + 1], segs[j + 1]) && segs'[i] == segs[i + 1];
      }
    }
  }

  lemma SwappedTables(s: Store, l: Layout)
    requires TablesOk(l.numbered, s.files, s.paths, l.tables) && |s.paths| >= 2
    requires s.phase.Swapping? && TableOk(l.numbered, s.files, s.phase.output, l.tables[0] + l.tables[1])
    ensures TablesOk(l.numbered, s.files, [s.phase.output] + s.paths[2..], [l.tables[0] + l.tables[1]] + l.tables[2..])
  {
    var paths, tables := [s.phase.output] + s.paths[2..], [l.tables[0] + l.tables[1]] + l.tables[2..];
    forall i | 0 <= i < |paths| ensures TableOk(l.numbered, s.files, paths[i], tables[i]) {
      if i > 0 {
        assert TableOk(l.numbered, s.files, s.paths[i + 1], l.tables[i + 1]);
      }
    }
  }

  lemma SwappedPaths(s: Store)
    requires PathsOk(s.paths, s.nextId) && |s.paths| >= 2 && s.phase.Swapping? && NewPath(s, s.phase.output)
    ensures PathsOk([s.phase.output] + s.paths[2..], s.nextId)
    ensures forall p :: p in s.paths[..2] ==> p !in [s.phase.output] + s.paths[2..]
  {
    forall p | p in s.paths[..2] ensures p !in [s.phase.output] + s.paths[2..] {
      assert p in s.paths;
    }
  }

  lemma DropControl(s: Store, l: Layout, files: map<string, Entries>, rest: seq<string>)
    requires ControlInv(s, l) && s.phase.Dropping? && (forall p :: p in rest ==> p in s.phase.merged)
    requires forall p :: p in s.paths ==> p in files && files[p] == s.files[p]
    ensures ControlInv(s.(files := files, phase := Dropping(rest)), l)
  {
    FilesChange(s, l, files, Dropping(rest));
  }

  lemma DropFirst(s: Store, l: Layout, ok: bool)
    requires ControlInv(s, l) && s.phase.Dropping? && s.phase.merged != []
    ensures ControlInv(DoDrop(s, ok), l)
  {
    var merged := s.phase.merged;
    assert merged[0] in merged && forall p :: p in merged[1..] ==> p in merged;
    assert forall p :: p in s.paths ==> p in s.files by { ListedThere(s, l); }
    DropControl(s, l, if ok then s.files - {merged[0]} else s.files, merged[1..]);
  }

  lemma DropInv(s: Store, l: Layout, ok: bool)
    requires ControlInv(s, l)
    ensures ControlInv(DoDrop(s, ok), l) && SameData(s, DoDrop(s, ok)) && Durable(DoDrop(s, ok), l) == Durable(s, l)
  {
    if s.phase.Dropping? {
      if s.phase.merged != [] {
        DropFirst(s, l, ok);
      } else {
        PhaseChanges(s, l, Reading, s.nextId);
      }
    }
  }

  // ---- the worker ----

  lemma TakesFlight(s: Store)
    requires FlightInv(s) && s.worker == Waiting && s.tasks != []
    ensures |s.tasks| == 1 && s.completions == [] && FlightInv(DoWorkerTakes(s)) && !Quiet(DoWorkerTakes(s)) && Listed(DoWorkerTakes(s)) == Listed(s)
  {
    assert |s.tasks| == 1;
  }

  lemma WorkerTakesInv(s: Store, l: Layout)
    requires ControlInv(s, l)
    ensures ControlInv(DoWorkerTakes(s), l) && SameData(s, DoWorkerTakes(s)) && Durable(DoWorkerTakes(s), l) == Durable(s, l)
  {
    if s.worker == Waiting && s.tasks != [] {
      TakesFlight(s);
    }
  }

  lemma WorkerWritesInv(s: Store, l: Layout, ok: bool, left: Option<Entries>)
    requires ControlInv(s, l)
    ensures ControlInv(DoWorkerWrites(s, ok, left), l) && SameData(s, DoWorkerWrites(s, ok, left)) && Durable(DoWorkerWrites(s, ok, left), l) == Durable(s, l)
  {
    if s.worker.Writing? {
      TablesKept(s, l, DoWorkerWrites(s, ok, left).files);
    }
  }

  lemma WorkerListsInv(s: Store, l: Layout, ok: bool)
    requires ControlInv(s, l)
    ensures ControlInv(DoWorkerLists(s, ok), l) && SameData(s, DoWorkerLists(s, ok)) && Durable(s, l) <= Durable(DoWorkerLists(s, ok), l)
  {
    if s.worker.Listing? && ok {
      assert s.manifest == s.paths;
    }
  }

  lemma WorkerReportsInv(s: Store, l: Layout)
    requires ControlInv(s, l)
    ensures ControlInv(DoWorkerReports(s), l) && SameData(s, DoWorkerReports(s)) && Durable(DoWorkerReports(s), l) == Durable(s, l)
  {
  }

  lemma ReadStep(s: Store, l: Layout, step: Step)
    requires ControlInv(s, l) && (step.BeginRead? || step.EndPoll? || step.EndRead?)
    ensures ControlInv(Next(s, step), l) && SameData(s, Next(s, step)) && Durable(Next(s, step), l) == Durable(s, l)
  {
    match step
    case BeginRead(key, time) => BeginReadInv(s, l, key, time);
    case EndPoll => EndPollInv(s, l);
    case EndRead => EndReadInv(s, l);
  }

  lemma WriteStep(s: Store, l: Layout, step: Step) returns (l': Layout)
    requires Inv(s, l) && (step.Put? || step.Del?)
    ensures Inv(Next(s, step), l') && Durable(Next(s, step), l') == Durable(s, l) && SameFlags(l, l')
  {
    if Next(s, step) == s {
      l' := l;
    } else {
      var value := if step.Put? then Some(step.value) else None;
      assert Next(s, step) == AfterWrite(s, step.key, value, step.logged);
      l' := WrittenInv(s, l, step.key, value, step.logged);
    }
  }

  lemma CompactionStep(s: Store, l: Layout, step: Step)
    requires Inv(s, l)
    requires step.Merge? || step.MergeFails? || step.Publish? || step.Prepare? || step.Drop?
    ensures ControlInv(Next(s, step), l) && SameData(s, Next(s, step)) && Durable(Next(s, step), l) == Durable(s, l)
  {
    match step
    case Merge(out) => MergeInv(s, l, out);
    case MergeFails(left) => MergeFailsInv(s, l, left);
    case Publish(ok) => PublishInv(s, l, ok);
    case Prepare(ok) => PrepareInv(s, l, ok);
    case Drop(ok) => DropInv(s, l, ok);
  }

  lemma WorkerStep(s: Store, l: Layout, step: Step)
    requires ControlInv(s, l)
    requires step.WorkerTakes? || step.WorkerWrites? || step.WorkerLists? || step.WorkerReports?
    ensures ControlInv(Next(s, step), l) && SameData(s, Next(s, step)) && Durable(s, l) <= Durable(Next(s, step), l)
    ensures !step.WorkerLists? ==> Durable(Next(s, step), l) == Durable(s, l)
  {
    match step
    case WorkerTakes => WorkerTakesInv(s, l);
    case WorkerWrites(ok, left) => WorkerWritesInv(s, l, ok, left);
    case WorkerLists(ok) => WorkerListsInv(s, l, ok);
    case WorkerReports => WorkerReportsInv(s, l);
  }

  /** The steps that leave history and memory as they are. */
  lemma QuietStep(s: Store, l: Layout, step: Step) returns (l': Layout)
    requires Inv(s, l) && !step.Put? && !step.Del? && !step.Poll?
    ensures ControlInv(Next(s, step), l') && DataInv(s, l') && SameData(s, Next(s, step)) && SameFlags(l, l')
    ensures Durable(s, l) <= Durable(Next(s, step), l')
    ensures !step.WorkerLists? ==> Durable(Next(s, step), l') == Durable(s, l)
  {
    l' := l;
    if step.Swap? {
      l' := SwapInv(s, l, step.ok);
    } else if step.BeginRead? || step.EndPoll? || step.EndRead? {
      ReadStep(s, l, step);
    } else if step.WorkerTakes? || step.WorkerWrites? || step.WorkerLists? || step.WorkerReports? {
      WorkerStep(s, l, step);
    } else {
      CompactionStep(s, l, step);
    }
  }

  /** Every step keeps the invariant. */
  lemma StepKeepsInv(s: Store, l: Layout, step: Step) returns (l': Layout)
    requires Inv(s, l)
    ensures Inv(Next(s, step), l') && Durable(s, l) <= Durable(Next(s, step), l') && SameFlags(l, l')
    ensures !step.WorkerLists? ==> Durable(Next(s, step), l') == Durable(s, l)
  {
    if step.Put? || step.Del? {
      l' := WriteStep(s, l, step);
    } else if step.Poll? {
      l' := PollInv(s, l);
    } else {
      l' := QuietStep(s, l, step);
      DataKept(s, Next(s, step), l');
    }
  }
}
