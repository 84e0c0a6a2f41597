/** Records one after another in a file, for any record format that can be told apart from its own beginnings. */
module Framing {
  import opened Options
  import opened Crc
  import opened WalRecords

  /** A record format: which operations it can carry, and how it writes and reads one. */
  datatype Codec = Codec(fits: Op -> bool, encode: Op -> Bytes, decode: Bytes -> Option<Frame>)

  predicate RoundTrip(cd: Codec, op: Op, rest: Bytes) {
    cd.fits(op) ==> cd.decode(cd.encode(op) + rest) == Some(Frame(op, |cd.encode(op)|))
  }

  predicate NeedsAll(cd: Codec, op: Op, t: Bytes) {
    cd.fits(op) && t <= cd.encode(op) && |t| < |cd.encode(op)| ==> cd.decode(t) == None
  }

  ghost predicate Good(cd: Codec) {
    && (forall op, rest :: RoundTrip(cd, op, rest))
    && (forall op, t :: NeedsAll(cd, op, t))
    && (forall op :: cd.encode(op) != [])
    && cd.decode([]) == None
  }

  function EncodeAll(cd: Codec, ops: seq<Op>): Bytes {
    if ops == [] then [] else cd.encode(ops[0]) + EncodeAll(cd, ops[1..])
  }

  /** What replay reads: records up to the first that is cut short or fails a check. */
  function Replay(cd: Codec, b: Bytes): seq<Op>
    decreases |b|
  {
    match cd.decode(b)
    case None => []
    case Some(f) => if 0 < f.size <= |b| then [f.op] + Replay(cd, b[f.size..]) else []
  }

  /** Where the last record that replay accepts ends. */
  function LastGood(cd: Codec, b: Bytes): (n: nat)
    ensures n <= |b|
    decreases |b|
  {
    match cd.decode(b)
    case None => 0
    case Some(f) => if 0 < f.size <= |b| then f.size + LastGood(cd, b[f.size..]) else 0
  }

  predicate AllFit(cd: Codec, ops: seq<Op>) {
    forall i :: 0 <= i < |ops| ==> cd.fits(ops[i])
  }

  lemma {:induction false} EncodeConcat(cd: Codec, a: seq<Op>, b: seq<Op>)
    ensures EncodeAll(cd, a + b) == EncodeAll(cd, a) + EncodeAll(cd, b)
  {
    if a == [] {
      assert a + b == b;
    } else {
      assert (a + b)[1..] == a[1..] + b;
      EncodeConcat(cd, a[1..], b);
    }
  }

  lemma EncodeOne(cd: Codec, op: Op)
    ensures EncodeAll(cd, [op]) == cd.encode(op)
  {
    assert [op][1..] == [];
  }

  lemma ReplayOne(cd: Codec, op: Op, rest: Bytes)
    requires Good(cd) && cd.fits(op)
    ensures Replay(cd, cd.encode(op) + rest) == [op] + Replay(cd, rest)
  {
    var b := cd.encode(op) + rest;
    assert RoundTrip(cd, op, rest);
    assert cd.decode(b) == Some(Frame(op, |cd.encode(op)|));
    assert b[|cd.encode(op)|..] == rest;
  }

  /** Whole records are read back, whatever follows them. */
  lemma {:induction false} ReplayEncoded(cd: Codec, ops: seq<Op>, rest: Bytes)
    requires Good(cd) && AllFit(cd, ops)
    ensures Replay(cd, EncodeAll(cd, ops) + rest) == ops + Replay(cd, rest)
  {
    if ops == [] {
      assert EncodeAll(cd, ops) + rest == rest;
    } else {
      var tail := EncodeAll(cd, ops[1..]) + rest;
      assert EncodeAll(cd, ops) + rest == cd.encode(ops[0]) + tail;
      ReplayOne(cd, ops[0], tail);
      ReplayEncoded(cd, ops[1..], rest);
      assert ops == [ops[0]] + ops[1..];
    }
  }

  // ---- cuts ----

  /** The start of a record that is not all there. */
  ghost predicate StumpOf(cd: Codec, t: Bytes, op: Op) {
    cd.fits(op) && t <= cd.encode(op) && |t| < |cd.encode(op)|
  }

  ghost predicate Stump(cd: Codec, t: Bytes) {
    t == [] || exists op :: StumpOf(cd, t, op)
  }

  lemma StumpReplays(cd: Codec, t: Bytes)
    requires Good(cd) && Stump(cd, t)
    ensures Replay(cd, t) == []
  {
    StumpRefused(cd, t);
  }

  lemma StumpPrefix(cd: Codec, t: Bytes, n: nat)
    requires Stump(cd, t) && n <= |t|
    ensures Stump(cd, t[..n])
  {
    if t != [] {
      var op :| StumpOf(cd, t, op);
      assert StumpOf(cd, t[..n], op);
    }
  }

  /** How many of the records lie within the first n bytes. */
  function WholeRecords(cd: Codec, ops: seq<Op>, n: nat): (k: nat)
    ensures k <= |ops|
  {
    if ops == [] || n < |cd.encode(ops[0])| then 0 else 1 + WholeRecords(cd, ops[1..], n - |cd.encode(ops[0])|)
  }

  /** Any cut of encoded operations is some of them and a stump. */
  lemma {:induction false} CutEncoded(cd: Codec, ops: seq<Op>, p: Bytes) returns (t: Bytes)
    requires AllFit(cd, ops) && p <= EncodeAll(cd, ops)
    ensures var k := WholeRecords(cd, ops, |p|);
      p == EncodeAll(cd, ops[..k]) + t && Stump(cd, t) && if k < |ops| then StumpOf(cd, t, ops[k]) else t == []
  {
    if ops == [] {
      t := [];
    } else {
      var e := cd.encode(ops[0]);
      if |p| < |e| {
        t := p;
        assert StumpOf(cd, p, ops[0]);
        assert p == EncodeAll(cd, ops[..0]) + p;
      } else {
        var rest := p[|e|..];
        assert p == e + rest;
        assert rest <= EncodeAll(cd, ops[1..]);
        t := CutEncoded(cd, ops[1..], rest);
        var k := WholeRecords(cd, ops[1..], |rest|);
        assert ops[1..][..k] == ops[..k + 1][1..];
        assert EncodeAll(cd, ops[..k + 1]) == e + EncodeAll(cd, ops[1..][..k]);
      }
    }
  }

  /** Replay accepts whole records and stops at a stump. */
  lemma {:induction false} LastGoodEncoded(cd: Codec, ops: seq<Op>, t: Bytes)
    requires Good(cd) && AllFit(cd, ops) && Stump(cd, t)
    ensures LastGood(cd, EncodeAll(cd, ops) + t) == |EncodeAll(cd, ops)|
  {
    var b := EncodeAll(cd, ops) + t;
    if ops == [] {
      assert b == t;
      StumpRefused(cd, t);
    } else {
      var rest := EncodeAll(cd, ops[1..]) + t;
      assert b == cd.encode(ops[0]) + rest;
      assert RoundTrip(cd, ops[0], rest);
      assert b[|cd.encode(ops[0])|..] == rest;
      LastGoodEncoded(cd, ops[1..], t);
    }
  }

  lemma StumpRefused(cd: Codec, t: Bytes)
    requires Good(cd) && Stump(cd, t)
    ensures cd.decode(t) == None
  {
    if t != [] {
      var op :| StumpOf(cd, t, op);
      assert NeedsAll(cd, op, t);
    }
  }

  lemma EncodePrefix(cd: Codec, ops: seq<Op>, k: nat)
    requires k <= |ops|
    ensures EncodeAll(cd, ops[..k]) <= EncodeAll(cd, ops)
  {
    assert ops == ops[..k] + ops[k..];
    EncodeConcat(cd, ops[..k], ops[k..]);
  }

  /** A cut behind the first n operations keeps them. */
  lemma CutKeeps(cd: Codec, ops: seq<Op>, n: nat, k: nat, t: Bytes)
    requires k <= |ops| && n <= |ops| && |EncodeAll(cd, ops[..n])| <= |EncodeAll(cd, ops[..k])| + |t|
    requires k < |ops| ==> |t| < |cd.encode(ops[k])|
    ensures n <= k
  {
    if k < n {
      EncodePrefix(cd, ops[..n], k + 1);
      assert ops[..n][..k + 1] == ops[..k] + [ops[k]];
      EncodeConcat(cd, ops[..k], [ops[k]]);
      EncodeOne(cd, ops[k]);
    }
  }

  // ---- what an accepted prefix says about the bytes ----

  /** What a record gives back about its bytes: its length, and its key behind the header. */
  ghost predicate Shows(cd: Codec, b: Bytes, f: Frame) {
    && f.size == |cd.encode(f.op)| && HEADER + |f.op.key| <= f.size <= |b|
    && b[HEADER..HEADER + |f.op.key|] == f.op.key
  }

  ghost predicate ShowsKeys(cd: Codec) {
    forall b :: cd.decode(b).Some? ==> Shows(cd, b, cd.decode(b).value)
  }

  /** Acceptance depends on the bytes of the record only. */
  predicate LocalAt(cd: Codec, b: Bytes, m: nat) {
    m <= |b| && cd.decode(b).Some? && cd.decode(b).value.size <= m ==> cd.decode(b[..m]) == cd.decode(b)
  }

  predicate SizedAt(cd: Codec, op: Op) {
    |cd.encode(op)| == HEADER + |op.key| + |ValueOf(op)| + 4
  }

  ghost predicate Exact(cd: Codec) {
    && ShowsKeys(cd)
    && (forall b, m :: LocalAt(cd, b, m))
    && (forall op :: SizedAt(cd, op))
  }

  /** Everything that replay finds in a short string is short. */
  lemma {:induction false} ShortFinds(cd: Codec, b: Bytes)
    requires Exact(cd)
    ensures forall op :: op in Replay(cd, b) ==> HEADER + |op.key| + |ValueOf(op)| + 4 <= |b|
    decreases |b|
  {
    if cd.decode(b).Some? {
      var f := cd.decode(b).value;
      assert Shows(cd, b, f) && SizedAt(cd, f.op);
      if 0 < f.size <= |b| {
        ShortFinds(cd, b[f.size..]);
      }
    }
  }
}
