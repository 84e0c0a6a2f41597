/** The operations of the log model are the calls that were made: key, value and order. */
module WalIssued {
  import opened Options
  import opened Crc
  import opened WalRecords
  import opened Framing
  import opened WalReads
  import opened WalLog
  import opened WalSafety
  import opened WalRuns

  /** The operation is a put of this value, or a delete where there is none, of this key, under this number. */
  predicate IsOp(op: Op, number: nat, key: Bytes, value: Option<Bytes>) {
    op.number == number && op.key == key && (op.Put? <==> value.Some?) && (op.Put? ==> op.value == value.value)
  }

  /** A write adds its operation, under the next number, behind all others, and its record to the buffer. */
  lemma WriteIssues(cd: Codec, l: Log, h: Ops, key: Bytes, value: Option<Bytes>)
    ensures var (l', h') := Next(cd, l, h, Write(key, value));
      && |All(h')| == |All(h)| + 1 && All(h) <= All(h')
      && IsOp(All(h')[|All(h)|], h.last + 1, key, value) && h'.last == h.last + 1
      && l'.file == l.file && l'.buffer == l.buffer + [cd.encode(All(h')[|All(h)|])]
  {
    var op := NextOp(h, key, value);
    assert All(DoWriteOps(h, op)) == All(h) + [op];
  }

  // ---- every operation was issued ----

  ghost predicate IssuedIn(steps: seq<Step>, op: Op) {
    exists j: nat :: j < |steps| && steps[j].Write? && IsOp(op, op.number, steps[j].key, steps[j].value)
  }

  lemma IssuedLater(steps: seq<Step>, step: Step, op: Op)
    requires IssuedIn(steps, op)
    ensures IssuedIn(steps + [step], op)
  {
    var j: nat :| j < |steps| && steps[j].Write? && IsOp(op, op.number, steps[j].key, steps[j].value);
    assert (steps + [step])[j] == steps[j];
  }

  lemma StepIssued(cd: Codec, l: Log, h: Ops, step: Step, op: Op)
    requires Good(cd) && Inv(cd, l, h) && Allowed(cd, l, h, step) && op in All(Next(cd, l, h, step).1)
    ensures op in All(h) || (step.Write? && IsOp(op, op.number, step.key, step.value))
  {
    match step
    case Write(key, value) =>
      WriteIssues(cd, l, h, key, value);
      var all := All(Next(cd, l, h, step).1);
      assert all == All(h) + [all[|All(h)|]];
    case FlushSucceeds => assert All(DoFlushOps(h)) == All(h);
    case FlushFails(n) =>
    case Crash(cut) => CrashAmong(cd, l, h, cut);
  }

  lemma IssuedNow(steps: seq<Step>, step: Step, op: Op)
    requires step.Write? && IsOp(op, op.number, step.key, step.value)
    ensures IssuedIn(steps + [step], op)
  {
    assert (steps + [step])[|steps|] == step;
  }

  /** Over any clean run, crashes included, the log model holds only operations that were called for. */
  lemma {:induction false} RunIssued(cd: Codec, steps: seq<Step>, op: Op)
    requires Good(cd) && Clean(cd, steps) && op in All(Run(cd, steps).1)
    ensures IssuedIn(steps, op)
  {
    var front, step := steps[..|steps| - 1], steps[|steps| - 1];
    assert front + [step] == steps;
    RunInv(cd, front);
    StepIssued(cd, Run(cd, front).0, Run(cd, front).1, step, op);
    if op in All(Run(cd, front).1) {
      RunIssued(cd, front, op);
      IssuedLater(front, step, op);
    } else {
      IssuedNow(front, step, op);
    }
  }

  /** Replay of whatever a crash leaves finds only such operations. */
  lemma FoundIssued(steps: seq<Step>, cut: nat, op: Op)
    requires Clean(Format(), steps)
    requires var l := Run(Format(), steps).0; l.synced <= cut <= |l.file| && op in Replay(Format(), l.file[..cut])
    ensures IssuedIn(steps, op)
  {
    FormatGood(Format());
    RunInv(Format(), steps);
    FoundAmong(Format(), Run(Format(), steps).0, Run(Format(), steps).1, cut);
    RunIssued(Format(), steps, op);
  }

  // ---- in order, between crashes ----

  function Calls(steps: seq<Step>): seq<Step> {
    if steps == [] then []
    else Calls(steps[..|steps| - 1]) + if steps[|steps| - 1].Write? then [steps[|steps| - 1]] else []
  }

  /** The operations are the calls, one for one, numbered from last + 1. */
  ghost predicate Issues(ops: seq<Op>, last: nat, calls: seq<Step>) {
    |ops| == |calls| && forall i :: 0 <= i < |calls| ==> calls[i].Write? && IsOp(ops[i], last + 1 + i, calls[i].key, calls[i].value)
  }

  lemma StepInOrder(cd: Codec, l: Log, h: Ops, step: Step, before: seq<Op>, last: nat, ops: seq<Op>, calls: seq<Step>) returns (more: seq<Op>)
    requires !step.Crash? && All(h) == before + ops && Issues(ops, last, calls) && h.last == last + |ops|
    ensures var h' := Next(cd, l, h, step).1;
      All(h') == before + more && Issues(more, last, calls + if step.Write? then [step] else []) && h'.last == last + |more|
  {
    more := ops;
    match step
    case Write(key, value) =>
      WriteIssues(cd, l, h, key, value);
      var all := All(Next(cd, l, h, step).1);
      assert all == All(h) + [all[|All(h)|]];
      more := ops + [all[|All(h)|]];
    case FlushSucceeds =>
      assert calls + [] == calls;
      assert All(DoFlushOps(h)) == All(h);
    case FlushFails(n) =>
      assert calls + [] == calls;
  }

  /** While the log is not reopened, its operations are those of before and then the calls, in order. */
  lemma {:induction false} CallsInOrder(cd: Codec, steps: seq<Step>, more: seq<Step>) returns (ops: seq<Op>)
    requires forall i :: 0 <= i < |more| ==> !more[i].Crash?
    ensures var h, h' := Run(cd, steps).1, Run(cd, steps + more).1;
      All(h') == All(h) + ops && Issues(ops, h.last, Calls(more)) && h'.last == h.last + |ops|
  {
    if more == [] {
      ops := [];
      assert steps + more == steps;
    } else {
      var n := |more| - 1;
      ops := CallsInOrder(cd, steps, more[..n]);
      assert steps + more == (steps + more[..n]) + [more[n]];
      RunMore(cd, steps + more[..n], more[n]);
      var (l, h) := Run(cd, steps + more[..n]);
      ops := StepInOrder(cd, l, h, more[n], All(Run(cd, steps).1), Run(cd, steps).1.last, ops, Calls(more[..n]));
    }
  }
}
