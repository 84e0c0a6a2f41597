/** The log object itself, and what opening a store on its file recovers (src/wal.cpp, src/kv_store.cpp). */
module WalFile {
  import opened Options
  import opened Mvcc
  import opened Crc
  import opened WalRecords
  import opened Framing
  import opened WalLog
  import opened WalReads
  import opened WalSafety
  import opened WalTorn
  import opened WalRuns
  import LsmStore
  import LsmSafety
  import MemTables

  // ---- from log to store ----

  /** The bytes of a key or value as the store's string. */
  function Text(b: Bytes): string {
    seq(|b|, i requires 0 <= i < |b| => (b[i] as int) as char)
  }

  function WriteOf(op: Op): Mvcc.Write {
    Mvcc.Write(Text(op.key), Version(op.number, if op.Put? then Some(Text(op.value)) else None))
  }

  function WritesOf(ops: seq<Op>): (ws: seq<Mvcc.Write>)
    ensures |ws| == |ops| && forall i :: 0 <= i < |ops| ==> ws[i] == WriteOf(ops[i])
  {
    seq(|ops|, i requires 0 <= i < |ops| => WriteOf(ops[i]))
  }

  lemma TextInjective(a: Bytes, b: Bytes)
    requires Text(a) == Text(b)
    ensures a == b
  {
    assert |a| == |Text(a)| == |Text(b)| == |b|;
    forall i | 0 <= i < |a| ensures a[i] == b[i] {
      assert Text(a)[i] == Text(b)[i];
      SameByte(a[i], b[i]);
    }
  }

  lemma SameByte(x: bv8, y: bv8)
    requires x as int == y as int
    ensures x == y
  {
  }

  /** What a lookup gives for the operation it stops at. */
  function Shown(op: Option<Op>): Option<Version> {
    if op == None then None else Some(WriteOf(op.value).version)
  }

  lemma {:induction false} HistorySeen(ops: seq<Op>, key: Bytes, t: nat)
    ensures Latest(HistoryOf(WritesOf(ops), Text(key)), t) == Shown(Seen(ops, key, t))
  {
    if ops != [] {
      var n := |ops| - 1;
      var front, last := ops[..n], ops[n];
      HistorySeen(front, key, t);
      assert WritesOf(ops)[..n] == WritesOf(front);
      var h := HistoryOf(WritesOf(front), Text(key));
      if Text(last.key) == Text(key) {
        TextInjective(last.key, key);
        assert (h + [WriteOf(last).version])[..|h|] == h;
      } else {
        assert last.key != key;
        assert h + [] == h;
      }
    }
  }

  lemma {:induction false} UnknownKey(ops: seq<Op>, key: string)
    requires forall b :: Text(b) != key
    ensures HistoryOf(WritesOf(ops), key) == []
  {
    if ops != [] {
      UnknownKey(ops[..|ops| - 1], key);
      assert WritesOf(ops)[..|ops| - 1] == WritesOf(ops[..|ops| - 1]);
    }
  }

  lemma RecoveredGet(versionBytes: nat, ws: seq<Mvcc.Write>, key: string, t: nat)
    ensures LsmStore.Get(LsmStore.Recovered(versionBytes, ws), key, t) == Expected(ws, key, t)
  {
    var s := LsmStore.Recovered(versionBytes, ws);
    LsmSafety.RecoveredRefilled(versionBytes, ws);
    assert HoldsAt(s.mem, ws, key);
  }

  /** The latest-value map after some writes. */
  function LatestOf(ws: seq<Mvcc.Write>): map<string, string> {
    if ws == [] then map[] else LsmStore.UpdateLatest(LatestOf(ws[..|ws| - 1]), ws[|ws| - 1])
  }

  lemma {:induction false} RecoveredLatestOf(versionBytes: nat, ws: seq<Mvcc.Write>)
    ensures LsmStore.Recovered(versionBytes, ws).latest == LatestOf(ws)
  {
    if ws != [] { RecoveredLatestOf(versionBytes, ws[..|ws| - 1]); }
  }

  function Lookup(m: map<string, string>, key: string): Option<string> {
    if key in m then Some(m[key]) else None
  }

  /** get() gives the last write of the key. */
  lemma {:induction false} LatestReads(ws: seq<Mvcc.Write>, key: string, t: nat)
    requires forall i :: 0 <= i < |ws| ==> ws[i].version.timestamp <= t
    ensures Lookup(LatestOf(ws), key) == Expected(ws, key, t)
  {
    if ws != [] {
      var n := |ws| - 1;
      LatestReads(ws[..n], key, t);
      var h := HistoryOf(ws[..n], key);
      if ws[n].key == key {
        assert (h + [ws[n].version])[..|h|] == h;
      } else {
        assert h + [] == h;
      }
    }
  }

  /** What a reader gets of the operation's value. */
  function TextOf(b: Option<Bytes>): Option<string> {
    if b.Some? then Some(Text(b.value)) else None
  }

  lemma StoreReads(ops: seq<Op>, key: Bytes, t: nat)
    ensures Expected(WritesOf(ops), Text(key), t) == TextOf(Reads(ops, key, t))
  {
    HistorySeen(ops, key, t);
    NewestIsLatest(HistoryOf(WritesOf(ops), Text(key)), t);
  }

  predicate StoreAnswersAt(versionBytes: nat, a: seq<Op>, b: seq<Op>, key: string, t: nat) {
    LsmStore.Get(LsmStore.Recovered(versionBytes, WritesOf(a)), key, t) == Expected(WritesOf(b), key, t)
  }

  /** Lists answer alike exactly when a store refilled from the first answers every read as the second says. */
  lemma StoreAnswersIff(versionBytes: nat, a: seq<Op>, b: seq<Op>)
    ensures AnswersAs(a, b) <==> forall key, t :: StoreAnswersAt(versionBytes, a, b, key, t)
  {
    if AnswersAs(a, b) {
      forall key, t: nat ensures StoreAnswersAt(versionBytes, a, b, key, t) {
        RecoveredGet(versionBytes, WritesOf(a), key, t);
        if x :| Text(x) == key {
          assert AnswersAt(a, b, x, t);
          StoreReads(a, x, t);
          StoreReads(b, x, t);
        } else {
          UnknownKey(a, key);
          UnknownKey(b, key);
        }
      }
    }
    if forall key, t :: StoreAnswersAt(versionBytes, a, b, key, t) {
      forall x, t: nat ensures AnswersAt(a, b, x, t) {
        assert StoreAnswersAt(versionBytes, a, b, Text(x), t);
        RecoveredGet(versionBytes, WritesOf(a), Text(x), t);
        StoreReads(a, x, t);
        StoreReads(b, x, t);
        if Reads(a, x, t).Some? && Reads(b, x, t).Some? { TextInjective(Reads(a, x, t).value, Reads(b, x, t).value); }
      }
    }
  }

  /** A store opened after this write and its flush answers every read as all operations say. */
  ghost predicate StoreSafe(versionBytes: nat, l: Log, h: Ops, key: Bytes, value: Option<Bytes>) {
    var op := NextOp(h, key, value);
    Fits(op) ==> forall k, t :: StoreAnswersAt(versionBytes, Replay(Format(), Flushed(Format(), l, op).file), All(h) + [op], k, t)
  }

  lemma StoreSafeIff(versionBytes: nat, l: Log, h: Ops, key: Bytes, value: Option<Bytes>)
    ensures StoreSafe(versionBytes, l, h, key, value) <==> SafeToWrite(Format(), l, h, key, value)
  {
    var op := NextOp(h, key, value);
    StoreAnswersIff(versionBytes, Replay(Format(), Flushed(Format(), l, op).file), All(h) + [op]);
  }

  /** The log as it would be found by opening the file as it stands. */
  function Reopened(l: Log, h: Ops): (Log, Ops) {
    Next(Format(), l, h, Crash(|l.file|))
  }

  /**
   A store opened after any next write whose flush returned true, issued now or after opening the log
   again, answers as all operations say, if and only if replay accepts the file to its end.
   */
  lemma StoreSafeIffAccepted(versionBytes: nat, steps: seq<Step>)
    requires Clean(Format(), steps) && Run(Format(), steps).1.last + 1 < Range(8)
    ensures var (l, h) := Run(Format(), steps); var (l', h') := Reopened(l, h);
      (forall key, value :: StoreSafe(versionBytes, l, h, key, value) && StoreSafe(versionBytes, l', h', key, value))
      <==> LastGood(Format(), l.file) == |l.file|
  {
    var (l, h) := Run(Format(), steps);
    var (l', h') := Reopened(l, h);
    NextWriteSafeIff(steps);
    forall key, value
      ensures StoreSafe(versionBytes, l, h, key, value) <==> SafeToWrite(Format(), l, h, key, value)
      ensures StoreSafe(versionBytes, l', h', key, value) <==> SafeToWrite(Format(), l', h', key, value)
    {
      StoreSafeIff(versionBytes, l, h, key, value);
      StoreSafeIff(versionBytes, l', h', key, value);
    }
  }

  lemma SameForReads(a: seq<Op>, b: seq<Op>, key: Bytes, t: nat)
    requires SameFor(a, b, key)
    ensures Expected(WritesOf(a), Text(key), t) == Expected(WritesOf(b), Text(key), t)
  {
    assert SameAt(a, b, key, t);
    StoreReads(a, key, t);
    StoreReads(b, key, t);
  }

  lemma FoundNumbers(steps: seq<Step>, cut: nat)
    requires Clean(Format(), steps)
    requires var l := Run(Format(), steps).0; l.synced <= cut <= |l.file|
    ensures var (l, h) := Run(Format(), steps); forall op :: op in Replay(Format(), l.file[..cut]) ==> op.number <= h.last
  {
    FormatGood(Format());
    RunInv(Format(), steps);
    FoundAmong(Format(), Run(Format(), steps).0, Run(Format(), steps).1, cut);
  }

  /**
   After any clean run and a crash at any byte behind the synced part, a store opened on the log answers
   every read of a key, and get, as the history of a prefix of the operations says that holds all
   flushed ones.
   */
  lemma RecoveredStoreReads(versionBytes: nat, steps: seq<Step>, cut: nat, key: string) returns (k: nat)
    requires Clean(Format(), steps)
    requires var l := Run(Format(), steps).0; l.synced <= cut <= |l.file|
    ensures var (l, h) := Run(Format(), steps);
      && |h.acked| <= k <= |All(h)|
      && var ws := WritesOf(All(h)[..k]); var s := LsmStore.Recovered(versionBytes, WritesOf(Replay(Format(), l.file[..cut])));
         && (forall t :: LsmStore.Get(s, key, t) == Expected(ws, key, t))
         && Lookup(s.latest, key) == Expected(ws, key, h.last)
  {
    var (l, h) := Run(Format(), steps);
    var ops := Replay(Format(), l.file[..cut]);
    k := |h.acked|;
    if x :| Text(x) == key {
      k := RecoversPerKey(steps, cut, x);
      forall t: nat ensures Expected(WritesOf(ops), key, t) == Expected(WritesOf(All(h)[..k]), key, t) {
        SameForReads(ops, All(h)[..k], x, t);
      }
    } else {
      UnknownKey(ops, key);
      UnknownKey(All(h)[..k], key);
    }
    forall t: nat ensures LsmStore.Get(LsmStore.Recovered(versionBytes, WritesOf(ops)), key, t) == Expected(WritesOf(ops), key, t) {
      RecoveredGet(versionBytes, WritesOf(ops), key, t);
    }
    FoundNumbers(steps, cut);
    LatestReads(WritesOf(ops), key, h.last);
    RecoveredLatestOf(versionBytes, WritesOf(ops));
  }

  lemma {:induction false} RecoveredSlot(versionBytes: nat, ws: seq<Mvcc.Write>)
    ensures LsmStore.Recovered(versionBytes, ws).slot == None
    ensures LsmStore.Recovered(versionBytes, ws).versionBytes == versionBytes
  {
    if ws != [] { RecoveredSlot(versionBytes, ws[..|ws| - 1]); }
  }

  // ---- the object ----

  method HeaderBytes(op: Op) returns (h: Bytes)
    ensures h == Header(op)
  {
    h := Little(MAGIC, 4) + Little(VERSION, 2) + Little(Kind(op), 1);
    h := h + Little(|op.key|, 4) + Little(|ValueOf(op)|, 4) + Little(op.number, 8);
  }

  /** Header, key and value go through the checksum one after another. */
  method ChecksumOf(header: Bytes, key: Bytes, value: Option<Bytes>) returns (crc: bv32)
    ensures crc == Update(0, header + key + if value.Some? then value.value else [])
  {
    crc := Crc32Update(0, header);
    crc := Crc32Update(crc, key);
    UpdateConcat(0, header, key);
    if value.Some? {
      crc := Crc32Update(crc, value.value);
      UpdateConcat(0, header + key, value.value);
    } else {
      assert header + key + [] == header + key;
    }
  }

  method CheckRecord(b: Bytes, k: nat, n: nat, isPut: bool) returns (right: bool)
    requires HEADER <= k <= n <= n + 4 <= |b| && (!isPut ==> k == n)
    ensures right == Checked(b[..n], b[n..n + 4])
  {
    var crc := ChecksumOf(b[..HEADER], b[HEADER..k], if isPut then Some(b[k..n]) else None);
    assert b[..HEADER] + b[HEADER..k] + (if isPut then b[k..n] else []) == b[..n];
    right := crc == Word(b[n..n + 4]);
  }

  /** One record out of the file, as the replay loop reads it. */
  method ReadRecord(b: Bytes) returns (r: Option<Frame>)
    ensures r == Decode(b)
  {
    if |b| < HEADER {
      return None;
    }
    var f := FieldsOf(b);
    if f.magic != MAGIC || f.version != VERSION || (f.kind != 1 && f.kind != 2) {
      return None;
    }
    r := ReadBody(b, f);
  }

  method ReadBody(b: Bytes, f: Fields) returns (r: Option<Frame>)
    requires |b| >= HEADER && f == FieldsOf(b) && GoodHeader(f)
    ensures r == Decode(b)
  {
    var k := HEADER + f.keyLength;
    var n := BodyLength(f);
    if |b| < k || |b| < n + 4 {
      return None;
    }
    var right := CheckRecord(b, k, n, f.kind == 1);
    DecodeBody(b, right);
    r := if right then Some(FrameOf(b, f)) else None;
  }

  class Wal {
    var isOpen: bool
    var file: Bytes
    var synced: nat
    var buffer: seq<Bytes>
    var lastGood: nat

    ghost function View(): Log
      reads this
    {
      Log(file, synced, buffer)
    }

    method WriteRecord(op: Op) returns (ok: bool)
      modifies this`buffer
      ensures ok == isOpen
      ensures View() == if ok then DoAppend(old(View()), Encode(op)) else old(View())
    {
      if !isOpen {
        return false;
      }
      var header := HeaderBytes(op);
      var crc := ChecksumOf(header, op.key, if op.Put? then Some(op.value) else None);
      var rec := header + op.key;
      if op.Put? {
        rec := rec + op.value;
      }
      assert rec == Body(op);
      rec := rec + Split(crc);
      buffer := buffer + [rec];
      ok := true;
    }

    /** One record: each write may take any part of what is left, or fail. */
    method WriteAll(rec: Bytes) returns (ok: bool, ghost n: nat)
      modifies this`file
      ensures n <= |rec| && file == old(file) + rec[..n] && (ok ==> n == |rec|)
    {
      var done := 0;
      while done < |rec|
        invariant 0 <= done <= |rec| && file == old(file) + rec[..done]
      {
        var fails: bool := *;
        if fails {
          return false, done;
        }
        var w: int := *;
        if w < 1 || w > |rec| - done {
          w := |rec| - done;
        }
        file := file + rec[done..done + w];
        assert rec[..done] + rec[done..done + w] == rec[..done + w];
        done := done + w;
      }
      assert rec[..done] == rec;
      return true, done;
    }

    /** All records in order, then a sync; the buffer is emptied only when both succeed. */
    method Flush() returns (ok: bool, ghost n: nat)
      modifies this
      ensures isOpen == old(isOpen) && lastGood == old(lastGood)
      ensures n <= |Joined(old(buffer))| && (!isOpen ==> !ok && n == 0)
      ensures View() == if ok then DoFlush(old(View())) else DoFailedFlush(old(View()), n)
    {
      if !isOpen {
        assert file + Joined(buffer)[..0] == file;
        return false, 0;
      }
      if buffer == [] {
        return true, 0;
      }
      ok, n := WriteBuffer();
      if !ok {
        return false, n;
      }
      var synchronised: bool := *;
      if !synchronised {
        return false, n;
      }
      assert Joined(buffer)[..n] == Joined(buffer);
      synced := |file|;
      buffer := [];
      return true, n;
    }

    method WriteBuffer() returns (ok: bool, ghost n: nat)
      modifies this`file
      ensures n <= |Joined(buffer)| && file == old(file) + Joined(buffer)[..n] && (ok ==> n == |Joined(buffer)|)
    {
      n := 0;
      ghost var all := Joined(buffer);
      var i := 0;
      while i < |buffer|
        invariant 0 <= i <= |buffer|
        invariant n <= |all| && file == old(file) + all[..n] && all[n..] == Joined(buffer[i..])
      {
        JoinedNext(buffer, i);
        ghost var before := file;
        ghost var m;
        ok, m := WriteAll(buffer[i]);
        WrittenPart(all, n, buffer[i], m);
        assert file == old(file) + (all[..n] + buffer[i][..m]);
        n := n + m;
        if !ok {
          return false, n;
        }
        i := i + 1;
      }
      return true, n;
    }

    /** Records are applied in order until the first bad one; nothing is cut off the file. */
    method ReplayInto(mem: MemTables.MemTable) returns (ok: bool, latest: map<string, string>, maxSeq: nat)
      requires mem.entries == map[] && mem.bytes == 0
      modifies this`lastGood, mem
      ensures ok == isOpen
      ensures ok ==>
        && Loaded(mem.versionBytes, Replay(Format(), file), latest, mem.entries, mem.bytes, maxSeq)
        && lastGood == LastGood(Format(), file) && Replay(Format(), file[lastGood..]) == []
    {
      if !isOpen {
        return false, map[], 0;
      }
      var end;
      latest, maxSeq, end := ReplayAll(Format(), file, mem);
      lastGood := end;
      ok := true;
    }
  }

  /** The replay loop, for any record format. */
  method ReplayAll(cd: Codec, b: Bytes, mem: MemTables.MemTable) returns (latest: map<string, string>, maxSeq: nat, pos: nat)
    requires mem.entries == map[] && mem.bytes == 0
    modifies mem
    ensures Loaded(mem.versionBytes, Replay(cd, b), latest, mem.entries, mem.bytes, maxSeq)
    ensures pos == LastGood(cd, b) && Replay(cd, b[pos..]) == []
  {
    latest, maxSeq, pos := map[], 0, 0;
    ghost var done := [];
    assert b[0..] == b;
    while true
      invariant Upto(cd, b, pos, done)
      invariant Loaded(mem.versionBytes, done, latest, mem.entries, mem.bytes, maxSeq)
      decreases |b| - pos
    {
      var r := cd.decode(b[pos..]);
      ReplayNext(cd, b, pos, done);
      if r == None || !(0 < r.value.size <= |b| - pos) {
        return;
      }
      latest, maxSeq := Apply(r.value.op, mem, latest, maxSeq, done);
      done := done + [r.value.op];
      pos := pos + r.value.size;
    }
  }

  /** `done` is what replay finds before pos. */
  ghost predicate Upto(cd: Codec, b: Bytes, pos: nat, done: seq<Op>) {
    pos <= |b| && Replay(cd, b) == done + Replay(cd, b[pos..]) && LastGood(cd, b) == pos + LastGood(cd, b[pos..])
  }

  lemma ReplayNext(cd: Codec, b: Bytes, pos: nat, done: seq<Op>)
    requires Upto(cd, b, pos, done)
    ensures match cd.decode(b[pos..])
      case None => done == Replay(cd, b) && Replay(cd, b[pos..]) == [] && pos == LastGood(cd, b)
      case Some(f) =>
        if 0 < f.size <= |b| - pos then Upto(cd, b, pos + f.size, done + [f.op])
        else done == Replay(cd, b) && Replay(cd, b[pos..]) == [] && pos == LastGood(cd, b)
  {
    assert done + [] == done;
    if cd.decode(b[pos..]).Some? {
      var f := cd.decode(b[pos..]).value;
      if 0 < f.size <= |b| - pos {
        var rest := Replay(cd, b[pos + f.size..]);
        assert b[pos..][f.size..] == b[pos + f.size..];
        assert Replay(cd, b[pos..]) == [f.op] + rest;
        assert done + ([f.op] + rest) == done + [f.op] + rest;
      }
    }
  }

  method Apply(op: Op, mem: MemTables.MemTable, latest: map<string, string>, maxSeq: nat, ghost done: seq<Op>)
    returns (latest': map<string, string>, maxSeq': nat)
    requires Loaded(mem.versionBytes, done, latest, mem.entries, mem.bytes, maxSeq)
    modifies mem
    ensures Loaded(mem.versionBytes, done + [op], latest', mem.entries, mem.bytes, maxSeq')
  {
    RecoveredNext(mem.versionBytes, done, op);
    if op.Put? {
      latest' := latest[Text(op.key) := Text(op.value)];
      mem.Put(Text(op.key), op.number, Text(op.value));
    } else {
      latest' := latest - {Text(op.key)};
      mem.Del(Text(op.key), op.number);
    }
    maxSeq' := if op.number > maxSeq then op.number else maxSeq;
  }

  function OpBytes(op: Op, versionBytes: nat): nat {
    |Text(op.key)| + (if op.Put? then |Text(op.value)| else 0) + LsmStore.TIMESTAMP_BYTES + versionBytes
  }

  /** Map, memtable and sequence number are those of a store that these operations refill. */
  ghost predicate Loaded(versionBytes: nat, ops: seq<Op>, latest: map<string, string>, entries: Entries, bytes: nat, maxSeq: nat) {
    var s := LsmStore.Recovered(versionBytes, WritesOf(ops));
    latest == s.latest && entries == s.mem && bytes == s.memBytes && maxSeq == s.lastSeq
  }

  lemma RecoveredNext(versionBytes: nat, done: seq<Op>, op: Op)
    ensures var s, s' := LsmStore.Recovered(versionBytes, WritesOf(done)), LsmStore.Recovered(versionBytes, WritesOf(done + [op]));
      && s'.latest == LsmStore.UpdateLatest(s.latest, WriteOf(op))
      && s'.mem == Push(s.mem, Text(op.key), WriteOf(op).version)
      && s'.memBytes == s.memBytes + OpBytes(op, versionBytes)
      && s'.lastSeq == if op.number > s.lastSeq then op.number else s.lastSeq
  {
    var ws, ws' := WritesOf(done), WritesOf(done + [op]);
    assert ws'[..|ws|] == ws;
    RecoveredSlot(versionBytes, ws);
  }

  lemma JoinedNext(buffer: seq<Bytes>, i: nat)
    requires i < |buffer|
    ensures Joined(buffer[i..]) == buffer[i] + Joined(buffer[i + 1..])
  {
    assert buffer[i..][0] == buffer[i] && buffer[i..][1..] == buffer[i + 1..];
  }

  lemma WrittenPart(all: Bytes, n: nat, rec: Bytes, m: nat)
    requires n <= |all| && rec <= all[n..] && m <= |rec|
    ensures n + m <= |all| && all[..n] + rec[..m] == all[..n + m]
    ensures m == |rec| ==> all[n + m..] == all[n..][|rec|..]
  {
    assert rec[..m] == all[n..][..m] == all[n..n + m];
  }
}
