/** What happens to writes behind bytes that replay does not accept, and behind damage. */
module WalTorn {
  import opened Options
  import opened Crc
  import opened WalRecords
  import opened WalReads
  import opened Framing
  import opened WalLog
  import opened WalSafety

  /** The log after one more write and a flush that returns true. */
  function Flushed(cd: Codec, l: Log, op: Op): Log {
    DoFlush(DoAppend(l, cd.encode(op)))
  }

  predicate AnswersAt(a: seq<Op>, b: seq<Op>, key: Bytes, t: nat) {
    Reads(a, key, t) == Reads(b, key, t)
  }

  /** Stores refilled from the two lists answer alike. */
  ghost predicate AnswersAs(a: seq<Op>, b: seq<Op>) {
    forall key, t :: AnswersAt(a, b, key, t)
  }

  /** A store opened after this write and its flush answers as all operations, the new one included, say. */
  ghost predicate SafeToWrite(cd: Codec, l: Log, h: Ops, key: Bytes, value: Option<Bytes>) {
    var op := NextOp(h, key, value);
    cd.fits(op) ==> AnswersAs(Replay(cd, Flushed(cd, l, op).file), All(h) + [op])
  }

  /** Every next write is safe, and so it is after closing the log and opening it as it stands. */
  ghost predicate SafeLog(cd: Codec, l: Log, h: Ops) {
    forall key, value ::
      SafeToWrite(cd, l, h, key, value)
      && SafeToWrite(cd, Next(cd, l, h, Crash(|l.file|)).0, Next(cd, l, h, Crash(|l.file|)).1, key, value)
  }

  // ---- an accepted file ----

  lemma SameAnswers(a: seq<Op>, b: seq<Op>)
    requires Same(a, b)
    ensures AnswersAs(a, b)
  {
    forall key, t ensures AnswersAt(a, b, key, t) {
      assert SameAt(a, b, key, t);
    }
  }

  lemma FlushedFile(cd: Codec, l: Log, h: Ops, op: Op)
    requires l.buffer == Encodings(cd, h.pending)
    ensures Flushed(cd, l, op).file == l.file + EncodeAll(cd, h.pending + [op])
  {
    EncodingsAppend(cd, h.pending, op);
    JoinedEncodings(cd, h.pending + [op]);
  }

  lemma AcceptedIsSafe(cd: Codec, l: Log, h: Ops, op: Op)
    requires Good(cd) && Inv(cd, l, h) && Consumed(cd, l) && cd.fits(op) && op.number == h.last + 1
    ensures AnswersAs(Replay(cd, Flushed(cd, l, op).file), All(h) + [op])
  {
    var l1, h1 := DoAppend(l, cd.encode(op)), DoWriteOps(h, op);
    WriteKeepsInv(cd, l, h, op);
    FlushKeepsInv(cd, l1, h1);
    var l2, h2 := DoFlush(l1), DoFlushOps(h1);
    FileShape(cd, l2, h2, Rest(cd, l2, h2));
    assert OnFile(h2) == h2.stored;
    assert All(h1) == All(h) + [op];
    SameAnswers(h2.stored, h2.acked);
  }

  lemma ReopenedAccepted(cd: Codec, l: Log, h: Ops)
    requires Good(cd) && Inv(cd, l, h)
    ensures var (l', h') := Next(cd, l, h, Crash(|l.file|));
      Inv(cd, l', h') && l'.file == l.file && l'.buffer == [] && h'.pending == [] && (Consumed(cd, l') <==> Consumed(cd, l))
  {
    EncodePrefix(cd, OnFile(h), |h.stored|);
    assert OnFile(h)[..|h.stored|] == h.stored;
    CrashKeepsInv(cd, l, h, |l.file|);
    assert l.file[..|l.file|] == l.file;
  }

  // ---- a torn file ----

  /** Header bytes of a put of one byte under a key of one byte do not depend on either. */
  predicate SameHeader(cd: Codec, n: nat, c: bv8, v: bv8, d: bv8, w: bv8) {
    var a, b := cd.encode(Put(n, [c], [v])), cd.encode(Put(n, [d], [w]));
    HEADER <= |a| && HEADER <= |b| && a[..HEADER] == b[..HEADER]
  }

  ghost predicate SameHeaders(cd: Codec, n: nat) {
    forall c, v, d, w :: SameHeader(cd, n, c, v, d, w)
  }

  ghost predicate FitsBytes(cd: Codec, n: nat) {
    forall c, v :: cd.fits(Put(n, [c], [v]))
  }

  lemma Other(c: bv8)
    ensures c ^ 1 != c
  {
  }

  /** Behind a stump, whatever replay finds under the key is not the value written. */
  lemma NothingFound(cd: Codec, g: Bytes, op: Op, found: Op)
    requires Good(cd) && Exact(cd) && Stump(cd, g) && g != [] && op.Put? && |op.key| == 1 && |op.value| == 1
    requires var x := g + cd.encode(op); HEADER < |x| && x[HEADER] != op.key[0]
    requires found in Replay(cd, g + cd.encode(op)) && found.key == op.key
    ensures ValueOf(found) == []
  {
    var x := g + cd.encode(op);
    var f := cd.decode(x).value;
    assert Shows(cd, x, f) && SizedAt(cd, op) && SizedAt(cd, f.op);
    assert f.size > |g| by {
      assert LocalAt(cd, x, |g|);
      assert x[..|g|] == g;
      StumpRefused(cd, g);
    }
    if |f.op.key| == 1 {
      assert f.op.key[0] == x[HEADER..HEADER + 1][0] == x[HEADER];
    }
    assert Replay(cd, x) == [f.op] + Replay(cd, x[f.size..]);
    assert found in Replay(cd, x[f.size..]);
    ShortFinds(cd, x[f.size..]);
  }

  lemma TornLoses(cd: Codec, ops: seq<Op>, g: Bytes, n: nat) returns (c: bv8, v: bv8)
    requires Good(cd) && Exact(cd) && SameHeaders(cd, n) && Stump(cd, g) && g != []
    ensures Reads(ops + Replay(cd, g + cd.encode(Put(n, [c], [v]))), [c], n) != Some([v])
  {
    assert SameHeader(cd, n, 0, 0, 0, 0);
    var common := g + cd.encode(Put(n, [0], [0]))[..HEADER];
    c := common[HEADER] ^ 1;
    Other(common[HEADER]);
    v := if Reads(ops, [c], n) == Some([0]) then 1 else 0;
    var op := Put(n, [c], [v]);
    assert SameHeader(cd, n, c, v, 0, 0);
    var x := g + cd.encode(op);
    assert x[..|common|] == common;
    var more := Replay(cd, x);
    SeenConcat(ops, more, [c], n);
    SeenIsMember(more, [c], n);
    if Seen(more, [c], n).Some? {
      NothingFound(cd, g, op, Seen(more, [c], n).value);
    }
  }

  lemma TornFile(cd: Codec, l: Log, h: Ops, op: Op)
    requires Good(cd) && Inv(cd, l, h) && h.pending == []
    ensures Replay(cd, Flushed(cd, l, op).file) == OnFile(h) + Replay(cd, Rest(cd, l, h) + cd.encode(op))
  {
    var g := Rest(cd, l, h);
    FlushedFile(cd, l, h, op);
    assert h.pending + [op] == [op];
    EncodeOne(cd, op);
    assert Flushed(cd, l, op).file == EncodeAll(cd, OnFile(h)) + (g + cd.encode(op));
    ReplayEncoded(cd, OnFile(h), g + cd.encode(op));
  }

  lemma LastReads(ops: seq<Op>, op: Op)
    requires op.Put?
    ensures Reads(ops + [op], op.key, op.number) == Some(op.value)
  {
    assert (ops + [op])[|ops|] == op;
  }

  lemma TornIsUnsafe(cd: Codec, l: Log, h: Ops) returns (key: Bytes, value: Option<Bytes>)
    requires Good(cd) && Exact(cd) && SameHeaders(cd, h.last + 1) && FitsBytes(cd, h.last + 1)
    requires Inv(cd, l, h) && h.pending == [] && !Consumed(cd, l)
    ensures !SafeToWrite(cd, l, h, key, value)
  {
    var g := Rest(cd, l, h);
    assert g != [] by { FileShape(cd, l, h, g); }
    var c, v := TornLoses(cd, OnFile(h), g, h.last + 1);
    var op := Put(h.last + 1, [c], [v]);
    key, value := [c], Some([v]);
    assert NextOp(h, key, value) == op && cd.fits(op);
    TornFile(cd, l, h, op);
    LastReads(All(h), op);
    assert !AnswersAt(Replay(cd, Flushed(cd, l, op).file), All(h) + [op], op.key, op.number);
  }

  lemma SafeIff(cd: Codec, l: Log, h: Ops)
    requires Good(cd) && Exact(cd) && Inv(cd, l, h)
    requires var n := Next(cd, l, h, Crash(|l.file|)).1.last + 1; SameHeaders(cd, n) && FitsBytes(cd, n)
    ensures SafeLog(cd, l, h) <==> Consumed(cd, l)
  {
    var (l', h') := Next(cd, l, h, Crash(|l.file|));
    ReopenedAccepted(cd, l, h);
    if Consumed(cd, l) {
      forall key, value ensures SafeToWrite(cd, l, h, key, value) && SafeToWrite(cd, l', h', key, value) {
        if cd.fits(NextOp(h, key, value)) { AcceptedIsSafe(cd, l, h, NextOp(h, key, value)); }
        if cd.fits(NextOp(h', key, value)) { AcceptedIsSafe(cd, l', h', NextOp(h', key, value)); }
      }
    } else {
      var key, value := TornIsUnsafe(cd, l', h');
      assert !SafeToWrite(cd, l', h', key, value);
    }
  }

  // ---- the format of the program ----

  lemma DecodeShows(b: Bytes)
    requires Decode(b).Some?
    ensures var f := Decode(b).value;
      && f.size == |Encode(f.op)| && HEADER + |f.op.key| <= f.size <= |b|
      && b[HEADER..HEADER + |f.op.key|] == f.op.key
  {
    var f := Decode(b).value;
    EncodedParts(f.op, [], Encode(f.op) + []);
  }

  lemma SameFrame(b: Bytes, p: Bytes, f: Fields)
    requires |b| >= HEADER && |p| >= HEADER && FieldsOf(p) == FieldsOf(b) == f && GoodHeader(f)
    requires var k, n := HEADER + f.keyLength, BodyLength(f);
      && n + 4 <= |b| && n + 4 <= |p| && p[..n] == b[..n] && p[n..n + 4] == b[n..n + 4]
      && p[HEADER..k] == b[HEADER..k] && p[k..n] == b[k..n] && Checked(b[..n], b[n..n + 4])
    ensures Decode(p) == Some(FrameOf(b, f))
  {
    var n := BodyLength(f);
    assert Checked(p[..n], p[n..n + 4]);
    DecodeBody(p, true);
    FrameParts(b, p, f);
  }

  lemma FrameParts(b: Bytes, p: Bytes, f: Fields)
    requires var k, n := HEADER + f.keyLength, BodyLength(f);
      n <= |b| && n <= |p| && p[HEADER..k] == b[HEADER..k] && p[k..n] == b[k..n]
    ensures FrameOf(p, f) == FrameOf(b, f)
  {
  }

  lemma DecodeLocal(b: Bytes, m: nat)
    requires Decode(b).Some? && Decode(b).value.size <= m <= |b|
    ensures Decode(b[..m]) == Decode(b)
  {
    Accepted(b);
    PrefixFields(b, m);
    PrefixParts(b, m, HEADER + FieldsOf(b).keyLength, BodyLength(FieldsOf(b)));
    SameFrame(b, b[..m], FieldsOf(b));
  }

  lemma PrefixFields(b: Bytes, m: nat)
    requires HEADER <= m <= |b|
    ensures FieldsOf(b[..m]) == FieldsOf(b)
  {
    assert b == b[..m] + b[m..];
    HeaderOfPrefix(b[..m], b[m..]);
  }

  lemma PrefixParts(b: Bytes, m: nat, k: nat, n: nat)
    requires HEADER <= k <= n && n + 4 <= m <= |b|
    ensures b[..m][..n] == b[..n] && b[..m][n..n + 4] == b[n..n + 4]
    ensures b[..m][HEADER..k] == b[HEADER..k] && b[..m][k..n] == b[k..n]
  {
  }

  lemma FormatExact(cd: Codec)
    requires cd == Format()
    ensures Exact(cd)
  {
    forall b | cd.decode(b).Some? ensures Shows(cd, b, cd.decode(b).value) {
      DecodeShows(b);
    }
    forall b, m: nat ensures LocalAt(cd, b, m) {
      if m <= |b| && Decode(b).Some? && Decode(b).value.size <= m { DecodeLocal(b, m); }
    }
    forall op ensures SizedAt(cd, op) {
      EncodedParts(op, [], Encode(op) + []);
    }
  }

  lemma OneByteHeader(n: nat, c: bv8, v: bv8, d: bv8, w: bv8)
    ensures Encode(Put(n, [c], [v]))[..HEADER] == Encode(Put(n, [d], [w]))[..HEADER]
  {
    var a, b := Put(n, [c], [v]), Put(n, [d], [w]);
    assert Encode(a)[..HEADER] == Header(a);
    assert Encode(b)[..HEADER] == Header(b);
  }

  lemma FormatSameHeaders(cd: Codec, n: nat)
    requires cd == Format()
    ensures SameHeaders(cd, n)
  {
    forall c, v, d, w ensures SameHeader(cd, n, c, v, d, w) {
      OneByteHeader(n, c, v, d, w);
    }
  }

  lemma FormatFitsBytes(cd: Codec, n: nat)
    requires cd == Format() && n < Range(8)
    ensures FitsBytes(cd, n)
  {
    Ranges();
    forall c, v ensures Fits(Put(n, [c], [v])) {
    }
  }

  /** Reopening gives out no number above those of the session. */
  lemma {:induction false} MaxWithin(ops: seq<Op>, last: nat)
    requires forall op :: op in ops ==> op.number <= last
    ensures MaxNumber(ops) <= last
  {
    if ops != [] {
      assert ops == ops[..|ops| - 1] + [ops[|ops| - 1]];
      MaxWithin(ops[..|ops| - 1], last);
    }
  }

  lemma ReopenedNumbers(cd: Codec, l: Log, h: Ops)
    requires Good(cd) && Inv(cd, l, h)
    ensures Next(cd, l, h, Crash(|l.file|)).1.last <= h.last
  {
    assert l.file[..|l.file|] == l.file;
    FileShape(cd, l, h, Rest(cd, l, h));
    AttemptsMembers(h.tried, h.pending);
    forall op | op in OnFile(h) ensures op.number <= h.last {
      assert op in h.stored ==> op in h.acked;
    }
    MaxWithin(OnFile(h), h.last);
  }

  lemma SafeInRun(cd: Codec, steps: seq<Step>)
    requires Good(cd) && Exact(cd) && Clean(cd, steps)
    requires forall n: nat :: n <= Run(cd, steps).1.last + 1 ==> SameHeaders(cd, n) && FitsBytes(cd, n)
    ensures SafeLog(cd, Run(cd, steps).0, Run(cd, steps).1) <==> Consumed(cd, Run(cd, steps).0)
  {
    RunInv(cd, steps);
    ReopenedNumbers(cd, Run(cd, steps).0, Run(cd, steps).1);
    SafeIff(cd, Run(cd, steps).0, Run(cd, steps).1);
  }

  /**
   In any clean state, every next write, now and after opening the log again, is answered together with
   all before it once its flush has returned true, if and only if replay accepts the file to its end.
   */
  lemma NextWriteSafeIff(steps: seq<Step>)
    requires Clean(Format(), steps) && Run(Format(), steps).1.last + 1 < Range(8)
    ensures SafeLog(Format(), Run(Format(), steps).0, Run(Format(), steps).1) <==> Consumed(Format(), Run(Format(), steps).0)
  {
    FormatGood(Format());
    FormatExact(Format());
    forall n: nat | n <= Run(Format(), steps).1.last + 1 ensures SameHeaders(Format(), n) && FitsBytes(Format(), n) {
      FormatSameHeaders(Format(), n);
      FormatFitsBytes(Format(), n);
    }
    SafeInRun(Format(), steps);
  }

  // ---- damage ----

  /** Damage within four neighbouring bytes of a record, sparing type and lengths, ends replay exactly there. */
  lemma DamageStopsReplay(ops: seq<Op>, j: nat, rec: Bytes, at: nat, rest: Bytes)
    requires AllFit(Format(), ops) && j < |ops| && Damaged(Encode(ops[j]), rec, at)
    ensures Replay(Format(), EncodeAll(Format(), ops[..j]) + (rec + rest)) == ops[..j]
  {
    var cd := Format();
    FormatGood(cd);
    assert cd.fits(ops[j]);
    DamageDetected(ops[j], rec, at, rest);
    assert cd.decode(rec + rest) == None;
    ReplayEncoded(cd, ops[..j], rec + rest);
  }
}
