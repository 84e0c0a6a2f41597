/** The log file over any run of writes, group commits, failed flushes and crashes (src/wal.cpp). */
module WalLog {
  import opened Options
  import opened Crc
  import opened WalRecords
  import opened WalReads
  import opened WalRetry
  import opened Framing

  /** Content of the file, how much of it is known to be on disk, and the records not yet written. */
  datatype Log = Log(file: Bytes, synced: nat, buffer: seq<Bytes>)

  /**
   The operations behind a log. In the order they were issued: flushed (`acked`), found by a replay
   and not flushed since (`written`), buffered (`pending`). On the file: the records of flushed
   operations (`stored`), then `written`, then whole records that failed flushes of the present buffer
   left behind (`tried`). `last` is the last sequence number given out.
   */
  datatype Ops = Ops(acked: seq<Op>, stored: seq<Op>, written: seq<Op>, pending: seq<Op>, tried: seq<Op>, last: nat)

  datatype Step =
    | Write(key: Bytes, value: Option<Bytes>)
    | FlushSucceeds
    | FlushFails(n: nat)   // a write error or a failed sync after n bytes
    | Crash(cut: nat)      // only `cut` bytes of the file survive; the log is opened again

  function Joined(buffer: seq<Bytes>): Bytes {
    if buffer == [] then [] else buffer[0] + Joined(buffer[1..])
  }

  function NextOp(h: Ops, key: Bytes, value: Option<Bytes>): Op {
    if value.Some? then Put(h.last + 1, key, value.value) else Del(h.last + 1, key)
  }

  function DoAppend(l: Log, rec: Bytes): Log {
    l.(buffer := l.buffer + [rec])
  }

  /** An empty buffer is neither written nor synced. */
  function DoFlush(l: Log): Log {
    if l.buffer == [] then l else Log(l.file + Joined(l.buffer), |l.file| + |Joined(l.buffer)|, [])
  }

  /** The buffer stays, so a later flush writes all of it again behind what is already there. */
  function DoFailedFlush(l: Log, n: nat): Log {
    if n <= |Joined(l.buffer)| then l.(file := l.file + Joined(l.buffer)[..n]) else l
  }

  function DoCrash(l: Log, cut: nat): Log {
    l.(file := if cut <= |l.file| then l.file[..cut] else l.file, buffer := [])
  }

  /** All operations in the order they were issued. */
  function All(h: Ops): seq<Op> {
    h.acked + h.written + h.pending
  }

  /** All whole records on the file. */
  function OnFile(h: Ops): seq<Op> {
    h.stored + h.written + h.tried
  }

  /** The largest sequence number that a replay meets. */
  function MaxNumber(ops: seq<Op>): (m: nat)
    ensures forall op :: op in ops ==> op.number <= m
  {
    if ops == [] then 0
    else
      var m := MaxNumber(ops[..|ops| - 1]);
      assert ops == ops[..|ops| - 1] + [ops[|ops| - 1]];
      if ops[|ops| - 1].number > m then ops[|ops| - 1].number else m
  }

  function DoWriteOps(h: Ops, op: Op): Ops {
    h.(pending := h.pending + [op], last := h.last + 1)
  }

  function DoFlushOps(h: Ops): Ops {
    if h.pending == [] then h else Ops(All(h), OnFile(h) + h.pending, [], [], [], h.last)
  }

  function DoFailOps(h: Ops, whole: nat): Ops {
    if whole <= |h.pending| then h.(tried := h.tried + h.pending[..whole]) else h
  }

  function DoCrashOps(h: Ops, found: seq<Op>): Ops {
    Ops(h.acked, h.stored, if |h.stored| <= |found| then found[|h.stored|..] else [], [], [], MaxNumber(found))
  }

  function Next(cd: Codec, l: Log, h: Ops, step: Step): (Log, Ops) {
    match step
    case Write(key, value) =>
      var op := NextOp(h, key, value);
      (DoAppend(l, cd.encode(op)), DoWriteOps(h, op))
    case FlushSucceeds => (DoFlush(l), DoFlushOps(h))
    case FlushFails(n) => (DoFailedFlush(l, n), DoFailOps(h, WholeRecords(cd, h.pending, n)))
    case Crash(cut) =>
      var l' := DoCrash(l, cut);
      (l', DoCrashOps(h, Replay(cd, l'.file)))
  }

  /** Replay accepts the file to its end. */
  predicate Consumed(cd: Codec, l: Log) {
    LastGood(cd, l.file) == |l.file|
  }

  /** The step can happen, and no flush writes behind bytes that replay does not accept. */
  predicate Allowed(cd: Codec, l: Log, h: Ops, step: Step) {
    match step
    case Write(key, value) => cd.fits(NextOp(h, key, value))
    case FlushSucceeds => l.buffer == [] || Consumed(cd, l)
    case FlushFails(n) => n <= |Joined(l.buffer)| && (n == 0 || Consumed(cd, l))
    case Crash(cut) => l.synced <= cut <= |l.file|
  }

  // ---- the invariant ----

  function Encodings(cd: Codec, ops: seq<Op>): seq<Bytes> {
    if ops == [] then [] else [cd.encode(ops[0])] + Encodings(cd, ops[1..])
  }

  predicate Within(ops: seq<Op>, last: nat) {
    forall op :: op in ops ==> 0 < op.number <= last
  }

  ghost predicate SameMembers(a: seq<Op>, b: seq<Op>) {
    forall op :: op in a <==> op in b
  }

  /** Sequence numbers: later groups are above earlier ones, and the buffer rises. */
  ghost predicate NumbersInv(h: Ops) {
    && Ascends(h.pending) && Below(h.acked, h.written) && Below(h.acked, h.pending) && Below(h.written, h.pending)
    && Within(h.acked, h.last) && Within(h.written, h.last) && Within(h.pending, h.last)
  }

  /** The records on the file read as the operations they stand for. */
  ghost predicate StoredInv(h: Ops) {
    Same(h.stored, h.acked) && SameMembers(h.stored, h.acked) && Attempts(h.tried, h.pending)
  }

  ghost predicate FileInv(cd: Codec, file: Bytes, ops: seq<Op>, t: Bytes) {
    AllFit(cd, ops) && file == EncodeAll(cd, ops) + t && Stump(cd, t)
  }

  /** What follows the last whole record. */
  function Rest(cd: Codec, l: Log, h: Ops): Bytes {
    var n := |EncodeAll(cd, OnFile(h))|;
    if n <= |l.file| then l.file[n..] else []
  }

  ghost predicate Inv(cd: Codec, l: Log, h: Ops) {
    && NumbersInv(h)
    && StoredInv(h)
    && AllFit(cd, h.pending)
    && l.buffer == Encodings(cd, h.pending)
    && FileInv(cd, l.file, OnFile(h), Rest(cd, l, h))
    && l.synced == |EncodeAll(cd, h.stored)|
  }

  lemma {:induction false} JoinedEncodings(cd: Codec, ops: seq<Op>)
    ensures Joined(Encodings(cd, ops)) == EncodeAll(cd, ops)
    ensures Encodings(cd, ops) == [] <==> ops == []
  {
    if ops != [] { JoinedEncodings(cd, ops[1..]); }
  }

  lemma {:induction false} EncodingsAppend(cd: Codec, ops: seq<Op>, op: Op)
    ensures Encodings(cd, ops + [op]) == Encodings(cd, ops) + [cd.encode(op)]
  {
    if ops == [] {
      assert [op][1..] == [];
    } else {
      assert (ops + [op])[1..] == ops[1..] + [op];
      EncodingsAppend(cd, ops[1..], op);
    }
  }

  lemma FitParts(cd: Codec, a: seq<Op>, b: seq<Op>)
    requires AllFit(cd, a + b)
    ensures AllFit(cd, a) && AllFit(cd, b)
  {
    assert forall i :: 0 <= i < |a| ==> (a + b)[i] == a[i];
    assert forall i :: 0 <= i < |b| ==> (a + b)[|a| + i] == b[i];
  }

  /** A file in this shape has that rest, and is accepted to its end exactly when the rest is empty. */
  lemma FileShape(cd: Codec, l: Log, h: Ops, t: Bytes)
    requires Good(cd) && FileInv(cd, l.file, OnFile(h), t)
    ensures Rest(cd, l, h) == t && Replay(cd, l.file) == OnFile(h)
    ensures Consumed(cd, l) <==> t == []
  {
    LastGoodEncoded(cd, OnFile(h), t);
    ReplayEncoded(cd, OnFile(h), t);
    StumpReplays(cd, t);
    assert OnFile(h) + [] == OnFile(h);
  }

  /** Any cut behind the first n records keeps them, then some more, then a stump. */
  lemma CutFile(cd: Codec, file: Bytes, ops: seq<Op>, t: Bytes, n: nat, c: nat) returns (k: nat, u: Bytes)
    requires FileInv(cd, file, ops, t) && n <= |ops| && |EncodeAll(cd, ops[..n])| <= c <= |file|
    ensures n <= k <= |ops| && FileInv(cd, file[..c], ops[..k], u)
  {
    var m := |EncodeAll(cd, ops)|;
    if c <= m {
      u := CutEncoded(cd, ops, file[..c]);
      k := WholeRecords(cd, ops, |file[..c]|);
      CutKeeps(cd, ops, n, k, u);
    } else {
      k, u := |ops|, t[..c - m];
      StumpPrefix(cd, t, c - m);
      assert ops[..k] == ops;
      assert file[..c] == EncodeAll(cd, ops) + u;
    }
  }

  /** What a crash leaves: the stored records, and a beginning of what follows them. */
  lemma CutReplays(cd: Codec, l: Log, h: Ops, c: nat) returns (k: nat, u: Bytes)
    requires Good(cd) && Inv(cd, l, h) && l.synced <= c <= |l.file|
    ensures k <= |h.written + h.tried| && Replay(cd, l.file[..c]) == h.stored + (h.written + h.tried)[..k]
    ensures FileInv(cd, l.file[..c], h.stored + (h.written + h.tried)[..k], u)
  {
    var ops := OnFile(h);
    assert ops == h.stored + (h.written + h.tried);
    assert ops[..|h.stored|] == h.stored;
    var m;
    m, u := CutFile(cd, l.file, ops, Rest(cd, l, h), |h.stored|, c);
    k := m - |h.stored|;
    assert ops[..m] == h.stored + (h.written + h.tried)[..k];
    ReplayEncoded(cd, ops[..m], u);
    StumpReplays(cd, u);
  }

  // ---- every step keeps it ----

  lemma WriteKeepsInv(cd: Codec, l: Log, h: Ops, op: Op)
    requires Good(cd) && Inv(cd, l, h) && cd.fits(op) && op.number == h.last + 1
    ensures Inv(cd, DoAppend(l, cd.encode(op)), DoWriteOps(h, op))
  {
    var l', h' := DoAppend(l, cd.encode(op)), DoWriteOps(h, op);
    WriteNumbers(h, op);
    AttemptsGrow(h.tried, h.pending, op);
    EncodingsAppend(cd, h.pending, op);
    assert OnFile(h') == OnFile(h);
    FileShape(cd, l', h', Rest(cd, l, h));
  }

  lemma WriteNumbers(h: Ops, op: Op)
    requires NumbersInv(h) && op.number == h.last + 1
    ensures NumbersInv(DoWriteOps(h, op))
  {
    forall i | 0 <= i < |h.acked| ensures h.acked[i].number < op.number {
      assert h.acked[i] in h.acked;
    }
    forall i | 0 <= i < |h.written| ensures h.written[i].number < op.number {
      assert h.written[i] in h.written;
    }
    forall i | 0 <= i < |h.pending| ensures h.pending[i].number < op.number {
      assert h.pending[i] in h.pending;
    }
  }

  lemma FlushStored(h: Ops)
    requires StoredInv(h)
    ensures Same(OnFile(h) + h.pending, All(h)) && SameMembers(OnFile(h) + h.pending, All(h))
  {
    var a, b := h.stored + h.written, h.acked + h.written;
    SameAppend(h.stored, h.acked, h.written);
    Absorbed(a, h.tried, h.pending);
    SameAppend(a, b, h.pending);
    SameTransitive(a + h.tried + h.pending, a + h.pending, b + h.pending);
    AttemptsMembers(h.tried, h.pending);
  }

  lemma FlushKeepsInv(cd: Codec, l: Log, h: Ops)
    requires Good(cd) && Inv(cd, l, h) && (l.buffer == [] || Consumed(cd, l))
    ensures Inv(cd, DoFlush(l), DoFlushOps(h))
  {
    JoinedEncodings(cd, h.pending);
    if h.pending != [] {
      var l', h' := DoFlush(l), DoFlushOps(h);
      FileShape(cd, l, h, Rest(cd, l, h));
      FlushStored(h);
      EncodeConcat(cd, OnFile(h), h.pending);
      assert OnFile(h') == OnFile(h) + h.pending;
      assert FileInv(cd, l'.file, OnFile(h'), []);
      FileShape(cd, l', h', []);
      assert Attempts([], []);
    }
  }

  /** Some bytes of the buffer behind whole records: more whole records and a stump. */
  lemma PartWritten(cd: Codec, file: Bytes, ops: seq<Op>, pending: seq<Op>, n: nat) returns (t: Bytes)
    requires FileInv(cd, file, ops, []) && AllFit(cd, pending) && n <= |EncodeAll(cd, pending)|
    ensures FileInv(cd, file + EncodeAll(cd, pending)[..n], ops + pending[..WholeRecords(cd, pending, n)], t)
  {
    var p, k := EncodeAll(cd, pending)[..n], WholeRecords(cd, pending, n);
    t := CutEncoded(cd, pending, p);
    EncodeConcat(cd, ops, pending[..k]);
    assert file + p == (EncodeAll(cd, ops) + EncodeAll(cd, pending[..k])) + t;
  }

  lemma PartWrittenInv(cd: Codec, l: Log, h: Ops, l': Log, h': Ops, n: nat)
    requires Good(cd) && Inv(cd, l, h) && Consumed(cd, l) && n <= |EncodeAll(cd, h.pending)|
    requires l' == l.(file := l.file + EncodeAll(cd, h.pending)[..n])
    requires h' == h.(tried := h.tried + h.pending[..WholeRecords(cd, h.pending, n)])
    ensures Inv(cd, l', h')
  {
    var k := WholeRecords(cd, h.pending, n);
    assert FileInv(cd, l.file, OnFile(h), []) by { FileShape(cd, l, h, Rest(cd, l, h)); }
    var t := PartWritten(cd, l.file, OnFile(h), h.pending, n);
    assert OnFile(h') == OnFile(h) + h.pending[..k];
    assert FileInv(cd, l'.file, OnFile(h'), t);
    assert FileInv(cd, l'.file, OnFile(h'), Rest(cd, l', h')) by { FileShape(cd, l', h', t); }
    assert StoredInv(h') by { AttemptsAgain(h.tried, h.pending, k); }
  }

  lemma FailedFlushKeepsInv(cd: Codec, l: Log, h: Ops, n: nat)
    requires Good(cd) && Inv(cd, l, h) && n <= |Joined(l.buffer)| && (n == 0 || Consumed(cd, l))
    ensures Inv(cd, DoFailedFlush(l, n), DoFailOps(h, WholeRecords(cd, h.pending, n)))
  {
    JoinedEncodings(cd, h.pending);
    if n == 0 {
      NothingWritten(cd, l, h);
    } else {
      PartWrittenInv(cd, l, h, DoFailedFlush(l, n), DoFailOps(h, WholeRecords(cd, h.pending, n)), n);
    }
  }

  lemma NothingWritten(cd: Codec, l: Log, h: Ops)
    requires Good(cd)
    ensures DoFailedFlush(l, 0) == l && DoFailOps(h, WholeRecords(cd, h.pending, 0)) == h
  {
    NoneWhole(cd, h.pending);
    assert l.file + Joined(l.buffer)[..0] == l.file;
    assert h.tried + h.pending[..0] == h.tried;
  }

  lemma NoneWhole(cd: Codec, ops: seq<Op>)
    requires Good(cd)
    ensures WholeRecords(cd, ops, 0) == 0
  {
    if ops != [] { assert cd.encode(ops[0]) != []; }
  }

  lemma CrashNumbers(h: Ops, found: seq<Op>, k: nat)
    requires NumbersInv(h) && StoredInv(h) && k <= |h.written + h.tried| && found == h.stored + (h.written + h.tried)[..k]
    ensures NumbersInv(DoCrashOps(h, found))
  {
    var w := (h.written + h.tried)[..k];
    assert found[|h.stored|..] == w;
    AttemptsMembers(h.tried, h.pending);
    forall op | op in w ensures op in h.written || op in h.pending {
      assert op in h.written + h.tried;
    }
    forall op | op in w ensures op in found && 0 < op.number && forall i :: 0 <= i < |h.acked| ==> h.acked[i].number < op.number {
      if op in h.written {
        var j :| 0 <= j < |h.written| && h.written[j] == op;
      } else {
        var j :| 0 <= j < |h.pending| && h.pending[j] == op;
      }
    }
    forall op | op in h.acked ensures op in found {
      assert op in h.stored;
    }
    forall j | 0 <= j < |w| ensures w[j] in w {
    }
  }

  lemma CrashKeepsInv(cd: Codec, l: Log, h: Ops, cut: nat)
    requires Good(cd) && Inv(cd, l, h) && l.synced <= cut <= |l.file|
    ensures var l' := DoCrash(l, cut); Inv(cd, l', DoCrashOps(h, Replay(cd, l'.file)))
  {
    var l' := DoCrash(l, cut);
    var k, u := CutReplays(cd, l, h, cut);
    var found := h.stored + (h.written + h.tried)[..k];
    var h' := DoCrashOps(h, found);
    CrashNumbers(h, found, k);
    assert OnFile(h') == found;
    FileShape(cd, l', h', u);
    assert Attempts([], []);
  }

  lemma StepKeepsInv(cd: Codec, l: Log, h: Ops, step: Step)
    requires Good(cd) && Inv(cd, l, h) && Allowed(cd, l, h, step)
    ensures Inv(cd, Next(cd, l, h, step).0, Next(cd, l, h, step).1)
    ensures h.acked <= Next(cd, l, h, step).1.acked
  {
    match step
    case Write(key, value) => WriteKeepsInv(cd, l, h, NextOp(h, key, value));
    case FlushSucceeds =>
      FlushKeepsInv(cd, l, h);
      assert h.acked <= All(h);
    case FlushFails(n) => FailedFlushKeepsInv(cd, l, h, n);
    case Crash(cut) => CrashKeepsInv(cd, l, h, cut);
  }
}
