/** What puts and deletes leave behind: the history as a function of the calls, and what is read right after. */
module LsmWrites {
  import opened Options
  import opened Mvcc
  import opened TableNames
  import opened LsmStore
  import opened LsmInvariant
  import opened LsmSafety
  import opened LsmFlush

  // ---- the history ----

  /** The value of the last write of a key; a deleted key has none. */
  function LastValue(ws: seq<Write>, key: string): Option<string> {
    if ws == [] then None
    else if ws[|ws| - 1].key == key then ws[|ws| - 1].version.value
    else LastValue(ws[..|ws| - 1], key)
  }

  function Largest(ws: seq<Write>): nat {
    if ws == [] then 0
    else
      var m := Largest(ws[..|ws| - 1]);
      if ws[|ws| - 1].version.timestamp > m then ws[|ws| - 1].version.timestamp else m
  }

  /** All writes so far and the last number given out. */
  datatype Journal = Journal(writes: seq<Write>, number: nat)

  /** A call takes the next number and, if the log accepts it, writes under that number. */
  function Noted(j: Journal, key: string, value: Option<string>, logged: bool): Journal {
    Journal(if logged then j.writes + [Write(key, Version(j.number + 1, value))] else j.writes, j.number + 1)
  }

  /** A put writes its value, a delete of a key that has one a tombstone; nothing else writes. */
  ghost function JournalOf(vb: nat, ws: seq<Write>, steps: seq<Step>): Journal {
    if steps == [] then Journal(ws, Largest(ws))
    else
      var n := |steps| - 1;
      var j := JournalOf(vb, ws, steps[..n]);
      if Run(vb, ws, steps[..n]).phase != Ready then j
      else match steps[n]
        case Put(key, value, logged) => Noted(j, key, Some(value), logged)
        case Del(key, logged) => if LastValue(j.writes, key) == None then j else Noted(j, key, None, logged)
        case _ => j
  }

  /** The store's map, history and number are those of the journal. */
  ghost predicate Matches(s: Store, j: Journal) {
    s.hist == j.writes && s.lastSeq == j.number && forall key :: LatestIs(s.latest, j.writes, key)
  }

  predicate LatestIs(latest: map<string, string>, ws: seq<Write>, key: string) {
    LastValue(ws, key) == if key in latest then Some(latest[key]) else None
  }

  lemma RecordMatches(s: Store, j: Journal, w: Write, n: nat)
    requires Matches(s, j)
    ensures Matches(Record(s, w).(lastSeq := n), Journal(j.writes + [w], n))
  {
    assert (j.writes + [w])[..|j.writes|] == j.writes;
    forall key ensures LatestIs(Record(s, w).latest, j.writes + [w], key) {
      assert LatestIs(s.latest, j.writes, key);
    }
  }

  lemma {:induction false} RecoveredMatches(vb: nat, ws: seq<Write>)
    ensures Matches(Recovered(vb, ws), Journal(ws, Largest(ws)))
  {
    if ws == [] {
      forall key ensures LatestIs(map[], [], key) {
      }
    } else {
      var front, w := ws[..|ws| - 1], ws[|ws| - 1];
      RecoveredMatches(vb, front);
      RecordMatches(Recovered(vb, front), Journal(front, Largest(front)), w, Largest(ws));
      assert front + [w] == ws;
    }
  }

  lemma FlushMatches(s: Store, j: Journal)
    requires Matches(s, j)
    ensures Matches(MaybeFlush(s), j)
  {
    forall key ensures LatestIs(MaybeFlush(s).latest, j.writes, key) {
      assert LatestIs(s.latest, j.writes, key);
    }
  }

  lemma WriteMatches(s: Store, j: Journal, key: string, value: Option<string>, logged: bool)
    requires Matches(s, j)
    ensures Matches(AfterWrite(s, key, value, logged), Noted(j, key, value, logged))
  {
    var w := Write(key, Version(j.number + 1, value));
    var s1 := s.(lastSeq := s.lastSeq + 1);
    assert Matches(s1, Journal(j.writes, j.number + 1)) by {
      forall k ensures LatestIs(s1.latest, j.writes, k) {
        assert LatestIs(s.latest, j.writes, k);
      }
    }
    if logged {
      RecordMatches(s1, Journal(j.writes, j.number + 1), w, j.number + 1);
      FlushMatches(Record(s1, w), Noted(j, key, value, logged));
    }
  }

  predicate SameNotes(s: Store, s': Store) {
    s'.hist == s.hist && s'.lastSeq == s.lastSeq && s'.latest == s.latest
  }

  lemma PollNotes(s: Store)
    ensures SameNotes(s, DoPoll(s))
  {
  }

  lemma EndPollNotes(s: Store)
    ensures SameNotes(s, DoEndPoll(s))
  {
  }

  lemma MergeNotes(s: Store, out: Entries, left: Option<Entries>)
    ensures SameNotes(s, DoMerge(s, out)) && SameNotes(s, DoMergeFails(s, left))
  {
  }

  lemma PublishNotes(s: Store, ok: bool)
    ensures SameNotes(s, DoPublish(s, ok)) && SameNotes(s, DoPrepare(s, ok))
  {
  }

  lemma SwapNotes(s: Store, ok: bool)
    ensures SameNotes(s, DoSwap(s, ok)) && SameNotes(s, DoDrop(s, ok))
  {
  }

  lemma WorkerNotes(s: Store, ok: bool, left: Option<Entries>)
    ensures SameNotes(s, DoWorkerTakes(s)) && SameNotes(s, DoWorkerReports(s))
    ensures SameNotes(s, DoWorkerWrites(s, ok, left)) && SameNotes(s, DoWorkerLists(s, ok))
  {
  }

  lemma QuietMatches(s: Store, step: Step)
    requires !step.Put? && !step.Del?
    ensures SameNotes(s, Next(s, step))
  {
    match step
    case BeginRead(_, _) =>
    case EndRead =>
    case Poll => PollNotes(s);
    case EndPoll => EndPollNotes(s);
    case Merge(out) => MergeNotes(s, out, None);
    case MergeFails(left) => MergeNotes(s, map[], left);
    case Publish(ok) => PublishNotes(s, ok);
    case Prepare(ok) => PublishNotes(s, ok);
    case Swap(ok) => SwapNotes(s, ok);
    case Drop(ok) => SwapNotes(s, ok);
    case WorkerTakes => WorkerNotes(s, true, None);
    case WorkerWrites(ok, left) => WorkerNotes(s, ok, left);
    case WorkerLists(ok) => WorkerNotes(s, ok, None);
    case WorkerReports => WorkerNotes(s, true, None);
  }

  lemma StepMatches(s: Store, j: Journal, step: Step)
    requires Matches(s, j)
    ensures Matches(Next(s, step),
      if s.phase != Ready then j
      else match step
        case Put(key, value, logged) => Noted(j, key, Some(value), logged)
        case Del(key, logged) => if LastValue(j.writes, key) == None then j else Noted(j, key, None, logged)
        case _ => j)
  {
    match step
    case Put(key, value, logged) => if s.phase == Ready { WriteMatches(s, j, key, Some(value), logged); }
    case Del(key, logged) =>
      assert LatestIs(s.latest, j.writes, key);
      if s.phase == Ready && key in s.latest { WriteMatches(s, j, key, None, logged); }
    case _ =>
      QuietMatches(s, step);
      forall key ensures LatestIs(Next(s, step).latest, j.writes, key) {
        assert LatestIs(s.latest, j.writes, key);
      }
  }

  /**
   The history of a session is the log's writes followed by one per accepted call: the value of a put,
   a tombstone for the delete of a key that has a value, numbered in order. The latest-value map gives
   the last of them.
   */
  lemma {:induction false} HistoryIsJournal(vb: nat, ws: seq<Write>, steps: seq<Step>)
    ensures Matches(Run(vb, ws, steps), JournalOf(vb, ws, steps))
  {
    if steps == [] {
      RecoveredMatches(vb, ws);
    } else {
      var n := |steps| - 1;
      HistoryIsJournal(vb, ws, steps[..n]);
      StepMatches(Run(vb, ws, steps[..n]), JournalOf(vb, ws, steps[..n]), steps[n]);
    }
  }

  // ---- reading one's own write ----

  /** The write fills the memtable while the slot is free, so that the worker gets it at once. */
  predicate HandsOver(s: Store, key: string, value: Option<string>) {
    s.slot == None && s.memBytes + |key| + (if value.Some? then |value.value| else 0) + TIMESTAMP_BYTES + s.versionBytes >= FLUSH_THRESHOLD
  }

  lemma WriteReads(s: Store, key: string, value: Option<string>, t: nat)
    requires t > s.lastSeq
    ensures Get(AfterWrite(s, key, value, true), key, t) ==
      if HandsOver(s, key, value) then Answer(TablesAt(s.files, s.paths, key, t)) else value
  {
    var w := Write(key, Version(s.lastSeq + 1, value));
    var s1 := Record(s.(lastSeq := s.lastSeq + 1), w);
    assert key in s1.mem;
    var vs := s1.mem[key];
    assert vs[|vs| - 1] == w.version;
    assert AfterWrite(s, key, value, true) == MaybeFlush(s1);
  }

  /**
   A logged delete of a present key removes it from the map, and get_at finds nothing from then on, if
   and only if the tombstone stays in the memtable or no table has a value for the key.
   */
  lemma DeleteReadsIff(s: Store, key: string, t: nat)
    requires s.phase == Ready && key in s.latest && t > s.lastSeq
    ensures var s' := DoDel(s, key, true);
      && key !in s'.latest && s'.lastSeq == s.lastSeq + 1
      && (Get(s', key, t) == None <==> !HandsOver(s, key, None) || Answer(TablesAt(s.files, s.paths, key, t)) == None)
  {
    WriteReads(s, key, None, t);
  }

  /** A logged put is in the map at once, and get_at gives it under the same condition. */
  lemma PutReadsIff(s: Store, key: string, value: string, t: nat)
    requires s.phase == Ready && t > s.lastSeq
    ensures var s' := DoPut(s, key, value, true);
      && key in s'.latest && s'.latest[key] == value && s'.lastSeq == s.lastSeq + 1
      && (Get(s', key, t) == Some(value) <==> !HandsOver(s, key, Some(value)) || Answer(TablesAt(s.files, s.paths, key, t)) == Some(value))
  {
    WriteReads(s, key, Some(value), t);
  }

  // ---- a delete that is read over ----

  /** A value in a table, a write that nearly fills the memtable, and the delete that hands both to the worker. */
  function Deletion(key: string, big: string, other: string, rest: string, t: nat): seq<Step> {
    Round(key, big, key, t) + [EndRead] + [Put(other, rest, true)] + [Del(key, true)] + [BeginRead(key, t)] + [EndPoll]
  }

  /** The store after the round: one table, nothing in memory. */
  ghost predicate AfterRound(s: Store, e: Entries, key: string, big: string) {
    InTable(s, e) && s.latest == map[key := big] && s.lastSeq == 1 && s.completions == []
  }

  lemma DeletionStart(vb: nat, key: string, big: string, t: nat)
    requires |key| + |big| + TIMESTAMP_BYTES >= FLUSH_THRESHOLD
    ensures var s := Run(vb, [], Round(key, big, key, t));
      AfterRound(s, map[key := [Version(1, Some(big))]], key, big) && s.versionBytes == vb
  {
    var s0 := Recovered(vb, []);
    var e := map[key := [Version(1, Some(big))]];
    RecoveredRefilled(vb, []);
    PutFills(s0, [], key, big);
    assert VersionsOf(s0.mem, key) == [] && [] + [Version(1, Some(big))] == [Version(1, Some(big))];
    assert Push(s0.mem, key, Version(1, Some(big))) == e;
    var s1 := DoPut(s0, key, big, true);
    RoundFrom(vb, [], s1, e, key, big, key, t);
    assert s1.latest == map[key := big] by { assert s0.latest == map[]; }
  }

  lemma DeletionEnds(s: Store, key: string, big: string, other: string, rest: string, t: nat)
    requires other != key && t >= 3 && AfterRound(s, map[key := [Version(1, Some(big))]], key, big)
    requires |other| + |rest| + TIMESTAMP_BYTES + s.versionBytes < FLUSH_THRESHOLD
    requires |other| + |rest| + TIMESTAMP_BYTES + s.versionBytes + |key| + TIMESTAMP_BYTES + s.versionBytes >= FLUSH_THRESHOLD
    ensures var s' := DoDel(DoPut(DoEndRead(s), other, rest, true), key, true);
      && key !in s'.latest && s'.phase == Ready && s'.completions == [] && Get(s', key, t) == Some(big)
  {
    var e := map[key := [Version(1, Some(big))]];
    var s1 := DoEndRead(s);
    var s2 := DoPut(s1, other, rest, true);
    assert other in s2.mem && s2.slot == None && s2.phase == Ready && s2.completions == [] && s2.files == s.files && s2.paths == s.paths;
    assert key in s2.latest && HandsOver(s2, key, None) && s2.lastSeq == 2;
    DeleteReadsIff(s2, key, t);
    WriteReads(s2, key, None, t);
    assert [FlushName(0)][..0] == [] && [Version(1, Some(big))][..0] == [];
    assert Best([Version(1, Some(big))], t) == Some(Version(1, Some(big)));
    assert TablesAt(s.files, [FlushName(0)], key, t) == Value(big);
  }

  lemma DeletionRun(vb: nat, key: string, big: string, other: string, rest: string, t: nat, s: Store)
    requires s == Run(vb, [], Round(key, big, key, t))
    ensures Run(vb, [], Deletion(key, big, other, rest, t))
         == DoEndPoll(DoBeginRead(DoDel(DoPut(DoEndRead(s), other, rest, true), key, true), key, t))
  {
    var r := Round(key, big, key, t);
    var s1 := DoEndRead(s);
    var s2 := DoPut(s1, other, rest, true);
    RunMore(vb, [], r, EndRead, s, s1);
    RunMore(vb, [], r + [EndRead], Put(other, rest, true), s1, s2);
    ReadRun(vb, r + [EndRead] + [Put(other, rest, true)], key, t, s2);
  }

  lemma ReadRun(vb: nat, r: seq<Step>, key: string, t: nat, s: Store)
    requires s == Run(vb, [], r)
    ensures Run(vb, [], r + [Del(key, true)] + [BeginRead(key, t)] + [EndPoll]) == DoEndPoll(DoBeginRead(DoDel(s, key, true), key, t))
  {
    var s1 := DoDel(s, key, true);
    RunMore(vb, [], r, Del(key, true), s, s1);
    RunMore(vb, [], r + [Del(key, true)], BeginRead(key, t), s1, DoBeginRead(s1, key, t));
    RunMore(vb, [], r + [Del(key, true)] + [BeginRead(key, t)], EndPoll, DoBeginRead(s1, key, t), DoEndPoll(DoBeginRead(s1, key, t)));
  }

  /** A reachable store in which a deleted key is read: its tombstone is with the worker, its value in a table. */
  lemma DeletedKeyRead(vb: nat, key: string, big: string, other: string, rest: string, t: nat)
    requires other != key && t >= 3 && |key| + |big| + TIMESTAMP_BYTES >= FLUSH_THRESHOLD
    requires |other| + |rest| + TIMESTAMP_BYTES + vb < FLUSH_THRESHOLD
    requires |other| + |rest| + TIMESTAMP_BYTES + vb + |key| + TIMESTAMP_BYTES + vb >= FLUSH_THRESHOLD
    ensures var s := Run(vb, [], Deletion(key, big, other, rest, t));
      s.phase == Reading && s.query == Query(key, t) && key !in s.latest && Get(s, key, t) == Some(big)
  {
    var s := Run(vb, [], Round(key, big, key, t));
    DeletionStart(vb, key, big, t);
    DeletionEnds(s, key, big, other, rest, t);
    DeletionRun(vb, key, big, other, rest, t, s);
    ReadAtOnce(DoDel(DoPut(DoEndRead(s), other, rest, true), key, true), key, t);
  }

  lemma ReadAtOnce(s: Store, key: string, t: nat)
    requires s.phase == Ready && s.completions == []
    ensures var s' := DoEndPoll(DoBeginRead(s, key, t));
      s'.phase == Reading && s'.query == Query(key, t) && s'.latest == s.latest && Get(s', key, t) == Get(s, key, t)
  {
  }
}
