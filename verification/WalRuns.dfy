/** Runs that reach the states in which the exact conditions fail, and the runs that stay clear of them. */
module WalRuns {
  import opened Options
  import opened Crc
  import opened WalRecords
  import opened WalReads
  import opened WalRetry
  import opened Framing
  import opened WalLog
  import opened WalSafety

  lemma RunMore(cd: Codec, steps: seq<Step>, step: Step)
    ensures Run(cd, steps + [step]) == Next(cd, Run(cd, steps).0, Run(cd, steps).1, step)
    ensures Clean(cd, steps + [step]) <==> Clean(cd, steps) && Allowed(cd, Run(cd, steps).0, Run(cd, steps).1, step)
  {
    assert (steps + [step])[..|steps|] == steps;
  }

  const START: Ops := Ops([], [], [], [], [], 0)

  lemma OneBuffered(rec: Bytes)
    ensures Joined([rec]) == rec
  {
    assert [rec][1..] == [];
  }

  /** A log with nothing on file and one write in the buffer. */
  lemma FirstWrite(cd: Codec, key: Bytes, value: Option<Bytes>)
    requires Good(cd) && cd.fits(NextOp(START, key, value))
    ensures var op := NextOp(START, key, value); var steps := [Write(key, value)];
      && Clean(cd, steps) && Run(cd, steps) == (Log([], 0, [cd.encode(op)]), Ops([], [], [], [op], [], 1))
      && Consumed(cd, Run(cd, steps).0)
  {
    RunMore(cd, [], Write(key, value));
    assert [] + [Write(key, value)] == [Write(key, value)];
    assert [] + [NextOp(START, key, value)] == [NextOp(START, key, value)];
    assert [] + [cd.encode(NextOp(START, key, value))] == [cd.encode(NextOp(START, key, value))];
  }

  /** A flush that fails inside its first record leaves a file that replay does not accept to its end. */
  lemma TornRun(cd: Codec, key: Bytes, value: Option<Bytes>, n: nat)
    requires Good(cd) && cd.fits(NextOp(START, key, value)) && 0 < n < |cd.encode(NextOp(START, key, value))|
    ensures var steps := [Write(key, value)] + [FlushFails(n)]; Clean(cd, steps) && !Consumed(cd, Run(cd, steps).0)
  {
    var op := NextOp(START, key, value);
    FirstWrite(cd, key, value);
    OneBuffered(cd.encode(op));
    RunMore(cd, [Write(key, value)], FlushFails(n));
    var t := cd.encode(op)[..n];
    assert [] + t == t;
    assert NeedsAll(cd, op, t);
  }

  /** A flush that fails after its only record, by a failed sync for one. */
  lemma SyncFailedRun(cd: Codec, key: Bytes, value: Option<Bytes>)
    requires Good(cd) && cd.fits(NextOp(START, key, value))
    ensures var op := NextOp(START, key, value); var steps := [Write(key, value)] + [FlushFails(|cd.encode(op)|)];
      && Clean(cd, steps) && Run(cd, steps) == (Log(cd.encode(op), 0, [cd.encode(op)]), Ops([], [], [], [op], [op], 1))
  {
    var op := NextOp(START, key, value);
    var e := cd.encode(op);
    FirstWrite(cd, key, value);
    OneBuffered(e);
    RunMore(cd, [Write(key, value)], FlushFails(|e|));
    assert [] + e[..|e|] == e;
    assert [op][1..] == [];
    assert WholeRecords(cd, [op], |e|) == 1;
    assert [] + [op][..1] == [op];
  }

  /** Opened again, the log holds an operation that was never synced; a flush then returns true without syncing it. */
  lemma UnsyncedRun(cd: Codec, key: Bytes, value: Option<Bytes>)
    requires Good(cd) && cd.fits(NextOp(START, key, value))
    ensures var op := NextOp(START, key, value); var n := |cd.encode(op)|;
      var steps := [Write(key, value)] + [FlushFails(n)] + [Crash(n)];
      && Clean(cd, steps + [FlushSucceeds])
      && Run(cd, steps).1.pending == [] && Run(cd, steps).1.written == [op]
      && !Survives(cd, All(Run(cd, steps).1), steps + [FlushSucceeds])
  {
    var op := NextOp(START, key, value);
    var e := cd.encode(op);
    var steps := [Write(key, value)] + [FlushFails(|e|)];
    SyncFailedRun(cd, key, value);
    RunMore(cd, steps, Crash(|e|));
    assert e[..|e|] == e;
    assert e == e + [];
    ReplayOne(cd, op, []);
    StumpReplays(cd, []);
    assert Replay(cd, e) == [op];
    RunMore(cd, steps + [Crash(|e|)], FlushSucceeds);
    FlushedSurvivesIff(cd, steps + [Crash(|e|)]);
  }

  /** Two writes of one key and one of another, left whole by a failed flush, are not orderly. */
  lemma Disorder(a: Op, b: Op, c: Op)
    requires a.key == b.key != c.key && Ascends([a, b, c])
    ensures !Orderly([a, b, c], [a, b, c])
  {
    var q := [a, b, c];
    assert q[..1] == [a] && q[..3] == q;
    assert [a][0].key == b.key;
    PrefixKeeps(q, 3, 2);
    assert !InView(q, q, 1, 1) && InView(q, q, 1, 2);
  }

  lemma {:induction false} AllWhole(cd: Codec, ops: seq<Op>)
    ensures WholeRecords(cd, ops, |EncodeAll(cd, ops)|) == |ops|
  {
    if ops != [] { AllWhole(cd, ops[1..]); }
  }

  lemma WholeBufferOps(cd: Codec, h: Ops)
    requires h.tried == []
    ensures DoFailOps(h, WholeRecords(cd, h.pending, |EncodeAll(cd, h.pending)|)) == h.(tried := h.pending)
  {
    AllWhole(cd, h.pending);
    assert [] + h.pending[..|h.pending|] == h.pending;
  }

  lemma WholeBufferFile(cd: Codec, file: Bytes, ops: seq<Op>, pending: seq<Op>)
    requires FileInv(cd, file, ops, []) && AllFit(cd, pending)
    ensures FileInv(cd, file + EncodeAll(cd, pending), ops + pending, [])
  {
    EncodeConcat(cd, ops, pending);
    assert file == EncodeAll(cd, ops);
  }

  lemma WholeBuffer(cd: Codec, l: Log, h: Ops, l': Log)
    requires Good(cd) && Inv(cd, l, h) && Consumed(cd, l) && h.tried == []
    requires l'.file == l.file + EncodeAll(cd, h.pending)
    ensures Consumed(cd, l')
  {
    var h' := h.(tried := h.pending);
    assert FileInv(cd, l.file, OnFile(h), []) by { FileShape(cd, l, h, Rest(cd, l, h)); }
    WholeBufferFile(cd, l.file, OnFile(h), h.pending);
    assert OnFile(h') == OnFile(h) + h.pending;
    FileShape(cd, l', h', []);
  }

  lemma SyncFailsAt(cd: Codec, l: Log, h: Ops, n: nat)
    requires Good(cd) && Inv(cd, l, h) && Consumed(cd, l) && h.tried == [] && n == |Joined(l.buffer)|
    ensures Allowed(cd, l, h, FlushFails(n))
    ensures Consumed(cd, DoFailedFlush(l, n)) && DoFailOps(h, WholeRecords(cd, h.pending, n)) == h.(tried := h.pending)
  {
    JoinedEncodings(cd, h.pending);
    WholeBufferOps(cd, h);
    assert Joined(l.buffer)[..n] == EncodeAll(cd, h.pending);
    WholeBuffer(cd, l, h, DoFailedFlush(l, n));
  }

  /** A flush whose sync fails leaves its whole buffer on the file. */
  lemma SyncFails(cd: Codec, steps: seq<Step>, l: Log, h: Ops, n: nat)
    requires Good(cd) && Clean(cd, steps) && Run(cd, steps) == (l, h) && Consumed(cd, l) && h.tried == [] && n == |Joined(l.buffer)|
    ensures var more := steps + [FlushFails(n)];
      Clean(cd, more) && Consumed(cd, Run(cd, more).0) && Run(cd, more).1 == h.(tried := h.pending)
  {
    RunInv(cd, steps);
    SyncFailsAt(cd, l, h, n);
    RunMore(cd, steps, FlushFails(n));
  }

  lemma WriteMore(cd: Codec, steps: seq<Step>, key: Bytes, value: Option<Bytes>)
    requires Good(cd) && Clean(cd, steps) && cd.fits(NextOp(Run(cd, steps).1, key, value))
    ensures var more := steps + [Write(key, value)]; var (l, h) := Run(cd, steps);
      && Clean(cd, more) && Run(cd, more).1 == DoWriteOps(h, NextOp(h, key, value)) && Run(cd, more).0.file == l.file
  {
    RunMore(cd, steps, Write(key, value));
  }

  /** A run after which a crash during the next flush can leave what no prefix would. */
  lemma DisorderRun(cd: Codec, k1: Bytes, k2: Bytes) returns (steps: seq<Step>)
    requires Good(cd) && k1 != k2 && forall n: nat :: n <= 3 ==> cd.fits(Put(n, k1, [])) && cd.fits(Put(n, k2, []))
    ensures Clean(cd, steps) && Consumed(cd, Run(cd, steps).0)
    ensures Run(cd, steps).1.tried == Run(cd, steps).1.pending
    ensures !Orderly(Run(cd, steps).1.tried, Run(cd, steps).1.pending)
  {
    FirstWrite(cd, k1, Some([]));
    steps := [Write(k1, Some([]))];
    WriteMore(cd, steps, k1, Some([]));
    steps := steps + [Write(k1, Some([]))];
    WriteMore(cd, steps, k2, Some([]));
    steps := steps + [Write(k2, Some([]))];
    var a, b, c := Put(1, k1, []), Put(2, k1, []), Put(3, k2, []);
    assert Run(cd, steps).1.pending == [a, b, c];
    var n := |Joined(Run(cd, steps).0.buffer)|;
    SyncFails(cd, steps, Run(cd, steps).0, Run(cd, steps).1, n);
    Disorder(a, b, c);
    steps := steps + [FlushFails(n)];
  }

  lemma FirstWhole(cd: Codec, a: Op, b: Op)
    requires Good(cd) && cd.fits(b)
    ensures WholeRecords(cd, [a, b], |cd.encode(a)|) == 1 && |cd.encode(a)| <= |EncodeAll(cd, [a, b])|
  {
    assert [a, b][1..] == [b];
    NoneWhole(cd, [b]);
  }

  /** A second failed flush that stops behind the first record leaves an older write behind a newer one. */
  lemma StaleStep(cd: Codec, l: Log, h: Ops, a: Op, b: Op)
    requires Good(cd) && Inv(cd, l, h) && Consumed(cd, l) && h.pending == [a, b] && OnFile(h) == [a, b]
    ensures var step := FlushFails(|cd.encode(a)|);
      Allowed(cd, l, h, step) && OnFile(Next(cd, l, h, step).1) == [a, b, a]
  {
    assert cd.fits(h.pending[1]);
    FirstWhole(cd, a, b);
    JoinedEncodings(cd, h.pending);
    assert [a, b][..1] == [a];
  }

  lemma ReplayOnFile(cd: Codec, steps: seq<Step>)
    requires Good(cd) && Clean(cd, steps)
    ensures Replay(cd, Run(cd, steps).0.file) == OnFile(Run(cd, steps).1)
  {
    var (l, h) := Run(cd, steps);
    RunInv(cd, steps);
    FileShape(cd, l, h, Rest(cd, l, h));
  }

  /** A run that leaves an older write of a key behind a newer one. */
  lemma StaleRun(cd: Codec, key: Bytes, x: Bytes, y: Bytes) returns (steps: seq<Step>)
    requires Good(cd) && cd.fits(Put(1, key, x)) && cd.fits(Put(2, key, y))
    ensures var a, b := Put(1, key, x), Put(2, key, y);
      Clean(cd, steps) && Replay(cd, Run(cd, steps).0.file) == [a, b, a]
  {
    var a, b := Put(1, key, x), Put(2, key, y);
    FirstWrite(cd, key, Some(x));
    steps := [Write(key, Some(x))];
    WriteMore(cd, steps, key, Some(y));
    steps := steps + [Write(key, Some(y))];
    var h := Run(cd, steps).1;
    assert h == Ops([], [], [], [a, b], [], 2);
    var n := |Joined(Run(cd, steps).0.buffer)|;
    SyncFails(cd, steps, Run(cd, steps).0, h, n);
    steps := steps + [FlushFails(n)];
    RunInv(cd, steps);
    StaleStep(cd, Run(cd, steps).0, Run(cd, steps).1, a, b);
    RunMore(cd, steps, FlushFails(|cd.encode(a)|));
    steps := steps + [FlushFails(|cd.encode(a)|)];
    ReplayOnFile(cd, steps);
  }

  // ---- numbers ----

  /** A number belongs to one operation. */
  ghost predicate Distinct(ops: seq<Op>) {
    forall a, b :: a in ops && b in ops && a.number == b.number ==> a == b
  }

  ghost predicate Among(part: seq<Op>, all: seq<Op>) {
    forall op :: op in part ==> op in all
  }

  /** Whatever a crash leaves was issued. */
  lemma FoundAmong(cd: Codec, l: Log, h: Ops, c: nat)
    requires Good(cd) && Inv(cd, l, h) && l.synced <= c <= |l.file|
    ensures Among(Replay(cd, l.file[..c]), All(h))
  {
    var k, u := CutReplays(cd, l, h, c);
    AttemptsMembers(h.tried, h.pending);
    forall op | op in h.stored + (h.written + h.tried)[..k] ensures op in All(h) {
      assert op in h.stored ==> op in h.acked;
      assert op in (h.written + h.tried)[..k] ==> op in h.written + h.tried;
    }
  }

  lemma CrashAmong(cd: Codec, l: Log, h: Ops, c: nat)
    requires Good(cd) && Inv(cd, l, h) && l.synced <= c <= |l.file|
    ensures Among(All(Next(cd, l, h, Crash(c)).1), All(h))
  {
    FoundAmong(cd, l, h, c);
    var found := Replay(cd, l.file[..c]);
    if |h.stored| <= |found| {
      assert forall op :: op in found[|h.stored|..] ==> op in found;
    }
  }

  lemma WriteDistinct(h: Ops, op: Op)
    requires NumbersInv(h) && op.number == h.last + 1 && Distinct(All(h))
    ensures Distinct(All(DoWriteOps(h, op)))
  {
    assert All(DoWriteOps(h, op)) == All(h) + [op];
    assert Within(All(h), h.last);
  }

  lemma StepDistinct(cd: Codec, l: Log, h: Ops, step: Step)
    requires Good(cd) && Inv(cd, l, h) && Allowed(cd, l, h, step) && Distinct(All(h))
    ensures Distinct(All(Next(cd, l, h, step).1))
  {
    match step
    case Write(key, value) => WriteDistinct(h, NextOp(h, key, value));
    case FlushSucceeds => assert All(DoFlushOps(h)) == All(h);
    case FlushFails(n) =>
    case Crash(cut) => CrashAmong(cd, l, h, cut);
  }

  /** Over any number of crashes a number on the file stands for one operation. */
  lemma {:induction false} RunDistinct(cd: Codec, steps: seq<Step>)
    requires Good(cd) && Clean(cd, steps)
    ensures Distinct(All(Run(cd, steps).1))
  {
    if steps != [] {
      var front := steps[..|steps| - 1];
      RunDistinct(cd, front);
      RunInv(cd, front);
      StepDistinct(cd, Run(cd, front).0, Run(cd, front).1, steps[|steps| - 1]);
    }
  }

  /** At every crash, what failed flushes of the buffer had left is a beginning of it, nothing twice. */
  predicate Calm(cd: Codec, steps: seq<Step>) {
    steps == [] ||
      var front := steps[..|steps| - 1];
      Calm(cd, front) && (steps[|steps| - 1].Crash? ==> Run(cd, front).1.tried <= Run(cd, front).1.pending)
  }

  lemma AscendsCrash(h: Ops, k: nat)
    requires Ascends(All(h)) && h.tried <= h.pending && k <= |h.written + h.tried|
    ensures Ascends(All(DoCrashOps(h, h.stored + (h.written + h.tried)[..k])))
  {
    var w, found := (h.written + h.tried)[..k], h.stored + (h.written + h.tried)[..k];
    assert found[|h.stored|..] == w;
    assert w == (h.written + h.pending)[..k];
    var all := h.acked + w + [];
    assert all == All(h)[..|h.acked| + k];
  }

  lemma AscendsWrite(h: Ops, op: Op)
    requires Ascends(All(h)) && NumbersInv(h) && op.number == h.last + 1
    ensures Ascends(All(DoWriteOps(h, op)))
  {
    var h' := DoWriteOps(h, op);
    assert All(h') == All(h) + [op];
    forall i | 0 <= i < |All(h)| ensures All(h)[i].number < op.number {
      assert All(h)[i] in All(h);
    }
  }

  lemma AscendsStep(cd: Codec, l: Log, h: Ops, step: Step)
    requires Good(cd) && Inv(cd, l, h) && Allowed(cd, l, h, step) && Ascends(All(h))
    requires step.Crash? ==> h.tried <= h.pending
    ensures Ascends(All(Next(cd, l, h, step).1))
  {
    match step
    case Write(key, value) => AscendsWrite(h, NextOp(h, key, value));
    case FlushSucceeds => assert All(DoFlushOps(h)) == All(h);
    case FlushFails(n) =>
    case Crash(cut) =>
      var k, u := CutReplays(cd, l, h, cut);
      AscendsCrash(h, k);
  }

  /** Calm runs number their operations in order. */
  lemma {:induction false} RunAscends(cd: Codec, steps: seq<Step>)
    requires Good(cd) && Clean(cd, steps) && Calm(cd, steps)
    ensures Ascends(All(Run(cd, steps).1))
  {
    if steps != [] {
      var front := steps[..|steps| - 1];
      RunAscends(cd, front);
      RunInv(cd, front);
      AscendsStep(cd, Run(cd, front).0, Run(cd, front).1, steps[|steps| - 1]);
    }
  }

  // ---- runs without repeated records ----

  /** No flush writes while whole records of its buffer stand on the file already. */
  predicate NoRetry(cd: Codec, steps: seq<Step>) {
    steps == [] ||
      var front, step := steps[..|steps| - 1], steps[|steps| - 1];
      NoRetry(cd, front) && (step.FlushSucceeds? || (step.FlushFails? && step.n > 0) ==> Run(cd, front).1.tried == [])
  }

  /** The file holds the operations once each, in order. */
  ghost predicate Literal(h: Ops) {
    h.stored == h.acked && h.tried <= h.pending && Ascends(All(h))
  }

  lemma LiteralStep(cd: Codec, l: Log, h: Ops, step: Step)
    requires Good(cd) && Inv(cd, l, h) && Allowed(cd, l, h, step) && Literal(h)
    requires step.FlushSucceeds? || (step.FlushFails? && step.n > 0) ==> h.tried == []
    ensures Literal(Next(cd, l, h, step).1)
  {
    AscendsStep(cd, l, h, step);
    match step
    case Write(key, value) =>
    case FlushSucceeds =>
      var h' := DoFlushOps(h);
      assert h.pending != [] ==> h'.stored == h'.acked;
    case FlushFails(n) => if n == 0 { NothingWritten(cd, l, h); }
    case Crash(cut) =>
  }

  lemma {:induction false} RunLiteral(cd: Codec, steps: seq<Step>)
    requires Good(cd) && Clean(cd, steps) && NoRetry(cd, steps)
    ensures Literal(Run(cd, steps).1)
  {
    if steps != [] {
      var front := steps[..|steps| - 1];
      RunLiteral(cd, front);
      RunInv(cd, front);
      LiteralStep(cd, Run(cd, front).0, Run(cd, front).1, steps[|steps| - 1]);
    }
  }

  /** Without repeated records replay finds the operations themselves, their numbers rising. */
  lemma LiteralPrefix(cd: Codec, steps: seq<Step>, cut: nat) returns (k: nat)
    requires Good(cd) && Clean(cd, steps) && NoRetry(cd, steps)
    requires var l := Run(cd, steps).0; l.synced <= cut <= |l.file|
    ensures var (l, h) := Run(cd, steps);
      && |h.acked| <= k <= |All(h)| && Replay(cd, l.file[..cut]) == All(h)[..k]
      && Ascends(All(h)) && Within(All(h), h.last)
  {
    RunInv(cd, steps);
    RunLiteral(cd, steps);
    var m, u := CutReplays(cd, Run(cd, steps).0, Run(cd, steps).1, cut);
    k := LiteralCut(Run(cd, steps).1, m);
  }

  lemma LiteralCut(h: Ops, m: nat) returns (k: nat)
    requires Literal(h) && NumbersInv(h) && m <= |h.written + h.tried|
    ensures |h.acked| <= k <= |All(h)| && h.stored + (h.written + h.tried)[..m] == All(h)[..k]
    ensures Within(All(h), h.last)
  {
    k := |h.acked| + m;
    assert (h.written + h.tried)[..m] == (h.written + h.pending)[..m];
    assert All(h) == h.acked + (h.written + h.pending);
  }
}
