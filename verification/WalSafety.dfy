/** Crash recovery and damage, for every run of the log. */
module WalSafety {
  import opened Crc
  import opened WalRecords
  import opened WalReads
  import opened WalRetry
  import opened Framing
  import opened WalLog

  /** The record format of src/wal.cpp. */
  function Format(): Codec {
    Codec(Fits, Encode, Decode)
  }

  lemma FormatGood(cd: Codec)
    requires cd == Format()
    ensures Good(cd)
  {
    forall op, rest ensures RoundTrip(cd, op, rest) {
      if Fits(op) { DecodeEncode(op, rest); }
    }
    forall op, t ensures NeedsAll(cd, op, t) {
      if Fits(op) && t <= Encode(op) && |t| < |Encode(op)| {
        DecodeCut(op, |t|);
        assert t == Encode(op)[..|t|];
      }
    }
  }

  // ---- runs ----

  function Run(cd: Codec, steps: seq<Step>): (Log, Ops) {
    if steps == [] then (Log([], 0, []), Ops([], [], [], [], [], 0))
    else
      var s := Run(cd, steps[..|steps| - 1]);
      Next(cd, s.0, s.1, steps[|steps| - 1])
  }

  /** Every step can happen, and no flush writes behind bytes that replay does not accept. */
  predicate Clean(cd: Codec, steps: seq<Step>) {
    steps == [] ||
      var front := steps[..|steps| - 1];
      Clean(cd, front) && Allowed(cd, Run(cd, front).0, Run(cd, front).1, steps[|steps| - 1])
  }

  lemma EmptyInv(cd: Codec)
    requires Good(cd)
    ensures Inv(cd, Log([], 0, []), Ops([], [], [], [], [], 0))
  {
    assert FileInv(cd, [], [], []);
    assert Attempts([], []);
  }

  lemma {:induction false} RunInv(cd: Codec, steps: seq<Step>)
    requires Good(cd) && Clean(cd, steps)
    ensures Inv(cd, Run(cd, steps).0, Run(cd, steps).1)
  {
    if steps == [] {
      EmptyInv(cd);
    } else {
      var front := steps[..|steps| - 1];
      RunInv(cd, front);
      StepKeepsInv(cd, Run(cd, front).0, Run(cd, front).1, steps[|steps| - 1]);
    }
  }

  /** What was flushed once stays flushed, over any number of crashes. */
  lemma {:induction false} AckedGrows(cd: Codec, steps: seq<Step>, more: seq<Step>)
    requires Good(cd) && Clean(cd, steps + more)
    ensures Run(cd, steps).1.acked <= Run(cd, steps + more).1.acked
  {
    if more == [] {
      assert steps + more == steps;
    } else {
      var all, front := steps + more, steps + more[..|more| - 1];
      assert all[..|all| - 1] == front && all[|all| - 1] == more[|more| - 1];
      AckedGrows(cd, steps, more[..|more| - 1]);
      RunInv(cd, front);
      StepKeepsInv(cd, Run(cd, front).0, Run(cd, front).1, more[|more| - 1]);
    }
  }

  // ---- what a crash leaves ----

  lemma SameGivesFor(a: seq<Op>, b: seq<Op>, key: Bytes)
    requires Same(a, b)
    ensures SameFor(a, b, key)
  {
    forall t ensures SameAt(a, b, key, t) {
    }
  }

  /** Up to what was found on the last opening nothing is repeated. */
  lemma EarlyCut(h: Ops, m: nat) returns (k: nat)
    requires StoredInv(h) && m <= |h.written|
    ensures |h.acked| <= k <= |All(h)| && Same(h.stored + (h.written + h.tried)[..m], All(h)[..k])
  {
    k := |h.acked| + m;
    assert (h.written + h.tried)[..m] == h.written[..m];
    assert All(h)[..k] == h.acked + h.written[..m];
    SameAppend(h.stored, h.acked, h.written[..m]);
  }

  lemma LateCut(h: Ops, m: nat)
    requires StoredInv(h) && |h.written| <= m <= |h.written + h.tried|
    ensures var tried := h.tried[..m - |h.written|];
      Same(h.stored + (h.written + h.tried)[..m], h.acked + h.written + tried) && Attempts(tried, h.pending)
  {
    var tried := h.tried[..m - |h.written|];
    assert h.stored + (h.written + h.tried)[..m] == h.stored + (h.written + tried);
    SameAppend(h.stored, h.acked, h.written + tried);
    assert h.acked + h.written + tried == h.acked + (h.written + tried);
    AttemptsCut(h.tried, h.pending, m - |h.written|);
  }

  lemma PerKey(cd: Codec, l: Log, h: Ops, c: nat, key: Bytes) returns (k: nat)
    requires Good(cd) && Inv(cd, l, h) && l.synced <= c <= |l.file|
    ensures |h.acked| <= k <= |All(h)| && SameFor(Replay(cd, l.file[..c]), All(h)[..k], key)
  {
    var m, u := CutReplays(cd, l, h, c);
    if m <= |h.written| {
      k := EarlyCut(h, m);
      SameGivesFor(Replay(cd, l.file[..c]), All(h)[..k], key);
    } else {
      var tried, base := h.tried[..m - |h.written|], h.acked + h.written;
      LateCut(h, m);
      var n := AttemptsPerKey(tried, h.pending, key);
      k := |base| + n;
      assert All(h)[..k] == base + h.pending[..n];
      SameForAppend(base, tried, h.pending[..n], key);
      SameForTransitive(Replay(cd, l.file[..c]), base + tried, base + h.pending[..n], key);
    }
  }

  /** The operations found that stand behind what the last opening had found. */
  function Beyond(h: Ops, found: seq<Op>): seq<Op> {
    if |h.stored + h.written| <= |found| then found[|h.stored + h.written|..] else []
  }

  /** The list reads as a prefix of the operations that holds all flushed ones. */
  ghost predicate LeavesPrefix(h: Ops, found: seq<Op>) {
    exists k: nat :: |h.acked| <= k <= |All(h)| && Same(found, All(h)[..k])
  }

  /** A prefix that ends before the buffer begins has none of its operations. */
  lemma ShortPrefix(h: Ops, r: seq<Op>, k: nat)
    requires NumbersInv(h) && Attempts(r, h.pending) && r != [] && k <= |h.acked + h.written|
    ensures !Same(h.acked + h.written + r, All(h)[..k])
  {
    var op, all := r[|r| - 1], h.acked + h.written + r;
    AttemptsMembers(r, h.pending);
    assert op in h.pending;
    assert all[|all| - 1] == op;
    SeenIsMember(All(h)[..k], op.key, op.number);
    assert forall x :: x in All(h)[..k] ==> x in h.acked || x in h.written;
    assert !SameAt(all, All(h)[..k], op.key, op.number);
  }

  lemma BaseReads(h: Ops, r: seq<Op>)
    requires NumbersInv(h) && Attempts(r, h.pending)
    ensures (exists k: nat :: |h.acked| <= k <= |All(h)| && Same(h.acked + h.written + r, All(h)[..k])) <==> Gapless(r, h.pending)
  {
    var base := h.acked + h.written;
    PrefixIff(base, r, h.pending);
    if Gapless(r, h.pending) {
      var n: nat :| n <= |h.pending| && Same(base + r, base + h.pending[..n]);
      assert All(h)[..|base| + n] == base + h.pending[..n];
    }
    if k: nat :| |h.acked| <= k <= |All(h)| && Same(base + r, All(h)[..k]) {
      if k < |base| && r != [] {
        ShortPrefix(h, r, k);
      } else if r == [] {
        NothingKept(h.pending);
      } else {
        assert All(h)[..k] == base + h.pending[..k - |base|];
        PrefixIsGapless(base, r, h.pending, k - |base|);
      }
    }
  }

  lemma NothingKept(p: seq<Op>)
    ensures Gapless([], p)
  {
  }

  /** A crash leaves a prefix if and only if it leaves no gap in the present buffer. */
  lemma CutIff(cd: Codec, l: Log, h: Ops, c: nat)
    requires Good(cd) && Inv(cd, l, h) && l.synced <= c <= |l.file|
    ensures LeavesPrefix(h, Replay(cd, l.file[..c])) <==> Gapless(Beyond(h, Replay(cd, l.file[..c])), h.pending)
  {
    var m, u := CutReplays(cd, l, h, c);
    var found := Replay(cd, l.file[..c]);
    if m <= |h.written| {
      var k := EarlyCut(h, m);
      assert Beyond(h, found) == [];
      NothingKept(h.pending);
    } else {
      var r := h.tried[..m - |h.written|];
      LateCut(h, m);
      assert Beyond(h, found) == r;
      BaseReads(h, r);
      SameEither(h, found, h.acked + h.written + r);
    }
  }

  lemma SameEither(h: Ops, a: seq<Op>, b: seq<Op>)
    requires Same(a, b)
    ensures LeavesPrefix(h, a) <==> LeavesPrefix(h, b)
  {
    SameSymmetric(a, b);
    if k: nat :| |h.acked| <= k <= |All(h)| && Same(a, All(h)[..k]) {
      SameTransitive(b, a, All(h)[..k]);
    }
    if k: nat :| |h.acked| <= k <= |All(h)| && Same(b, All(h)[..k]) {
      SameTransitive(a, b, All(h)[..k]);
    }
  }

  /**
   After any clean run and a crash at any byte behind the synced part, every key reads, at all times,
   as a prefix of the operations makes it read, and that prefix holds all flushed ones.
   */
  lemma RecoversPerKey(steps: seq<Step>, cut: nat, key: Bytes) returns (k: nat)
    requires Clean(Format(), steps)
    requires var l := Run(Format(), steps).0; l.synced <= cut <= |l.file|
    ensures var (l, h) := Run(Format(), steps);
      |h.acked| <= k <= |All(h)| && SameFor(Replay(Format(), l.file[..cut]), All(h)[..k], key)
  {
    FormatGood(Format());
    RunInv(Format(), steps);
    k := PerKey(Format(), Run(Format(), steps).0, Run(Format(), steps).1, cut, key);
  }

  /**
   One and the same prefix for all keys is left if and only if no operation of the present buffer can
   be read behind one that cannot.
   */
  lemma RecoversPrefixIff(steps: seq<Step>, cut: nat)
    requires Clean(Format(), steps)
    requires var l := Run(Format(), steps).0; l.synced <= cut <= |l.file|
    ensures var (l, h) := Run(Format(), steps); var found := Replay(Format(), l.file[..cut]);
      LeavesPrefix(h, found) <==> Gapless(Beyond(h, found), h.pending)
  {
    FormatGood(Format());
    RunInv(Format(), steps);
    CutIff(Format(), Run(Format(), steps).0, Run(Format(), steps).1, cut);
  }

  /** After a single attempt the file reads, and has the operations, of a prefix. */
  lemma OneAttempt(cd: Codec, l: Log, h: Ops, c: nat) returns (k: nat)
    requires Good(cd) && Inv(cd, l, h) && l.synced <= c <= |l.file| && h.tried <= h.pending
    ensures |h.acked| <= k <= |All(h)| && Same(Replay(cd, l.file[..c]), All(h)[..k])
    ensures SameMembers(Replay(cd, l.file[..c]), All(h)[..k])
  {
    var m, u := CutReplays(cd, l, h, c);
    var x := (h.written + h.tried)[..m];
    k := |h.acked| + m;
    assert x == (h.written + h.pending)[..m];
    assert All(h)[..k] == h.acked + x;
    SameAppend(h.stored, h.acked, x);
  }

  /** In particular a prefix is left unless a flush has repeated records of the present buffer. */
  lemma RecoversPrefix(steps: seq<Step>, cut: nat) returns (k: nat)
    requires Clean(Format(), steps)
    requires var (l, h) := Run(Format(), steps); l.synced <= cut <= |l.file| && h.tried <= h.pending
    ensures var (l, h) := Run(Format(), steps);
      |h.acked| <= k <= |All(h)| && Same(Replay(Format(), l.file[..cut]), All(h)[..k])
  {
    FormatGood(Format());
    RunInv(Format(), steps);
    k := OneAttempt(Format(), Run(Format(), steps).0, Run(Format(), steps).1, cut);
  }

  /** Numbers given out since the last opening rise and are above all before them. */
  lemma NumbersRise(steps: seq<Step>)
    requires Clean(Format(), steps)
    ensures var h := Run(Format(), steps).1;
      && Ascends(h.pending) && Below(h.acked, h.pending) && Below(h.written, h.pending) && Below(h.acked, h.written)
      && Within(All(h), h.last)
  {
    FormatGood(Format());
    RunInv(Format(), steps);
  }

  // ---- repeated records ----

  /** The file if the whole buffer is written once more. */
  function Repeated(cd: Codec, l: Log, h: Ops): Bytes {
    l.file + EncodeAll(cd, h.pending)
  }

  /** Cut at c, the repeated file leaves a prefix that holds everything found before the buffer was filled. */
  ghost predicate CutLeavesPrefix(cd: Codec, l: Log, h: Ops, c: nat) {
    c <= |Repeated(cd, l, h)| ==>
      exists k: nat :: k <= |h.pending| && Same(Replay(cd, Repeated(cd, l, h)[..c]), h.acked + h.written + h.pending[..k])
  }

  lemma RepeatedCut(cd: Codec, l: Log, h: Ops, c: nat) returns (j: nat)
    requires Good(cd) && Inv(cd, l, h) && Consumed(cd, l) && |l.file| <= c <= |Repeated(cd, l, h)|
    ensures j <= |h.pending| && Replay(cd, Repeated(cd, l, h)[..c]) == OnFile(h) + h.pending[..j]
  {
    FileShape(cd, l, h, Rest(cd, l, h));
    var n := c - |l.file|;
    var t := PartWritten(cd, l.file, OnFile(h), h.pending, n);
    j := WholeRecords(cd, h.pending, n);
    assert Repeated(cd, l, h)[..c] == l.file + EncodeAll(cd, h.pending)[..n];
    ReplayEncoded(cd, OnFile(h) + h.pending[..j], t);
    StumpReplays(cd, t);
  }

  lemma RepeatedAt(cd: Codec, l: Log, h: Ops, j: nat) returns (c: nat)
    requires Good(cd) && Inv(cd, l, h) && Consumed(cd, l) && j <= |h.pending|
    ensures |l.file| <= c <= |Repeated(cd, l, h)| && Replay(cd, Repeated(cd, l, h)[..c]) == OnFile(h) + h.pending[..j]
  {
    FileShape(cd, l, h, Rest(cd, l, h));
    EncodePrefix(cd, h.pending, j);
    var part, ops := EncodeAll(cd, h.pending[..j]), OnFile(h) + h.pending[..j];
    c := |l.file| + |part|;
    EncodeConcat(cd, OnFile(h), h.pending[..j]);
    assert Repeated(cd, l, h)[..c] == EncodeAll(cd, ops) + [];
    ReplayEncoded(cd, ops, []);
    StumpReplays(cd, []);
  }

  lemma RepeatedReads(h: Ops, j: nat)
    requires StoredInv(h) && j <= |h.pending|
    ensures var base := h.acked + h.written;
      (exists k: nat :: k <= |h.pending| && Same(OnFile(h) + h.pending[..j], base + h.pending[..k]))
      <==> ReadsAsPrefix(base, h.tried + h.pending[..j], h.pending)
  {
    var base, x := h.acked + h.written, h.tried + h.pending[..j];
    var a, b := h.stored + (h.written + x), h.acked + (h.written + x);
    assert OnFile(h) + h.pending[..j] == a;
    assert base + x == b;
    SameAppend(h.stored, h.acked, h.written + x);
    SameSymmetric(a, b);
    if k: nat :| k <= |h.pending| && Same(a, base + h.pending[..k]) {
      SameTransitive(b, a, base + h.pending[..k]);
    }
    if k: nat :| k <= |h.pending| && Same(b, base + h.pending[..k]) {
      SameTransitive(a, b, base + h.pending[..k]);
    }
  }

  lemma SameSymmetric(a: seq<Op>, b: seq<Op>)
    requires Same(a, b)
    ensures Same(b, a)
  {
    forall key, t ensures SameAt(b, a, key, t) {
      assert SameAt(a, b, key, t);
    }
  }

  /**
   A buffer whose flush has failed, any number of times, is flushed again. Every crash during that
   flush leaves a prefix if and only if the records left by the failed ones are orderly.
   */
  lemma RetryPrefixIff(cd: Codec, l: Log, h: Ops)
    requires Good(cd) && Inv(cd, l, h) && Consumed(cd, l)
    ensures (forall c: nat :: |l.file| <= c ==> CutLeavesPrefix(cd, l, h, c)) <==> Orderly(h.tried, h.pending)
  {
    var base := h.acked + h.written;
    assert Below(base, h.pending);
    RetryCutsIff(base, h.tried, h.pending);
    if Orderly(h.tried, h.pending) {
      forall c: nat | |l.file| <= c ensures CutLeavesPrefix(cd, l, h, c) {
        if c <= |Repeated(cd, l, h)| {
          var j := RepeatedCut(cd, l, h, c);
          assert ReadsAsPrefix(base, h.tried + h.pending[..j], h.pending);
          RepeatedReads(h, j);
        }
      }
    } else {
      var j: nat :| j <= |h.pending| && !ReadsAsPrefix(base, h.tried + h.pending[..j], h.pending);
      var c := RepeatedAt(cd, l, h, j);
      RepeatedReads(h, j);
      assert !CutLeavesPrefix(cd, l, h, c);
    }
  }

  lemma RetryRecoversIff(steps: seq<Step>)
    requires Clean(Format(), steps) && Consumed(Format(), Run(Format(), steps).0)
    ensures var (l, h) := Run(Format(), steps);
      (forall c: nat :: |l.file| <= c ==> CutLeavesPrefix(Format(), l, h, c)) <==> Orderly(h.tried, h.pending)
  {
    FormatGood(Format());
    RunInv(Format(), steps);
    RetryPrefixIff(Format(), Run(Format(), steps).0, Run(Format(), steps).1);
  }

  // ---- when a flush that returned true keeps its promise ----

  /** At this crash the key reads as a prefix makes it read that holds `base`. */
  ghost predicate SurvivesAt(cd: Codec, base: seq<Op>, l: Log, h: Ops, cut: nat, key: Bytes) {
    l.synced <= cut <= |l.file| ==>
      exists k: nat :: |base| <= k <= |All(h)| && base <= All(h) && SameFor(Replay(cd, l.file[..cut]), All(h)[..k], key)
  }

  ghost predicate SurvivesRun(cd: Codec, base: seq<Op>, steps: seq<Step>, cut: nat, key: Bytes) {
    Clean(cd, steps) ==> SurvivesAt(cd, base, Run(cd, steps).0, Run(cd, steps).1, cut, key)
  }

  /** At every crash of every continuation. */
  ghost predicate Survives(cd: Codec, base: seq<Op>, steps: seq<Step>) {
    forall more, cut, key :: SurvivesRun(cd, base, steps + more, cut, key)
  }

  lemma AckedSurvives(cd: Codec, base: seq<Op>, steps: seq<Step>)
    requires Good(cd) && base == Run(cd, steps).1.acked
    ensures Survives(cd, base, steps)
  {
    forall more, cut: nat, key ensures SurvivesRun(cd, base, steps + more, cut, key) {
      var all := steps + more;
      if Clean(cd, all) && Run(cd, all).0.synced <= cut <= |Run(cd, all).0.file| {
        AckedGrows(cd, steps, more);
        RunInv(cd, all);
        var k := PerKey(cd, Run(cd, all).0, Run(cd, all).1, cut, key);
        assert Run(cd, all).1.acked <= All(Run(cd, all).1);
      }
    }
  }

  lemma SyncedReplays(cd: Codec, l: Log, h: Ops)
    requires Good(cd) && Inv(cd, l, h)
    ensures l.synced <= |l.file| && Replay(cd, l.file[..l.synced]) == h.stored
  {
    var ops := OnFile(h);
    assert ops == h.stored + (h.written + h.tried);
    FitParts(cd, h.stored, h.written + h.tried);
    EncodeConcat(cd, h.stored, h.written + h.tried);
    assert l.file[..l.synced] == EncodeAll(cd, h.stored) + [];
    ReplayEncoded(cd, h.stored, []);
    StumpReplays(cd, []);
  }

  /** The last operation found on opening is not among the stored ones. */
  lemma LastWrittenUnseen(h: Ops)
    requires NumbersInv(h) && StoredInv(h) && h.written != []
    ensures var w := h.written[|h.written| - 1]; !SameAt(h.stored, h.acked + h.written, w.key, w.number)
  {
    var n := |h.written| - 1;
    var w := h.written[n];
    assert h.acked + h.written == (h.acked + h.written[..n]) + [w];
    SeenIsMember(h.stored, w.key, w.number);
    forall op | op in h.stored ensures op.number < w.number {
      assert op in h.acked;
      var i :| 0 <= i < |h.acked| && h.acked[i] == op;
    }
  }

  /** What was only found on opening is lost by a crash that cuts the unsynced part off. */
  lemma UnsyncedLost(cd: Codec, l: Log, h: Ops)
    requires Good(cd) && Inv(cd, l, h) && h.pending == [] && h.written != []
    ensures !SurvivesAt(cd, All(h), l, h, l.synced, h.written[|h.written| - 1].key)
  {
    var w, all := h.written[|h.written| - 1], All(h);
    SyncedReplays(cd, l, h);
    LastWrittenUnseen(h);
    assert all == h.acked + h.written && all[..|all|] == all;
    assert !SameFor(h.stored, all, w.key);
  }

  /**
   All operations issued so far survive every later crash of every continuation after a flush returns
   true if and only if the flush had something to write or nothing unsynced was found on opening.
   */
  lemma FlushedSurvivesIff(cd: Codec, steps: seq<Step>)
    requires Good(cd) && Clean(cd, steps + [FlushSucceeds])
    ensures var h := Run(cd, steps).1;
      Survives(cd, All(h), steps + [FlushSucceeds]) <==> h.pending != [] || h.written == []
  {
    var flushed := steps + [FlushSucceeds];
    var h := Run(cd, steps).1;
    assert flushed[..|flushed| - 1] == steps;
    var (l', h') := Run(cd, flushed);
    assert h' == DoFlushOps(h);
    if h.pending != [] || h.written == [] {
      assert h'.acked == All(h);
      AckedSurvives(cd, All(h), flushed);
    } else {
      RunInv(cd, flushed);
      UnsyncedLost(cd, l', h');
      assert flushed + [] == flushed;
      assert !SurvivesRun(cd, All(h), flushed + [], l'.synced, h.written[|h.written| - 1].key);
    }
  }

  lemma FlushedSurvives(steps: seq<Step>)
    requires Clean(Format(), steps + [FlushSucceeds])
    ensures var h := Run(Format(), steps).1;
      Survives(Format(), All(h), steps + [FlushSucceeds]) <==> h.pending != [] || h.written == []
  {
    FormatGood(Format());
    FlushedSurvivesIff(Format(), steps);
  }
}
