/** What a store refilled from a list of operations sees, and which lists it cannot tell apart. */
module WalReads {
  import opened Options
  import opened Crc
  import opened WalRecords

  /** The operation a read of the key at time t finds: the last one pushed that is not too new. */
  function Seen(ops: seq<Op>, key: Bytes, t: nat): Option<Op> {
    if ops == [] then None
    else
      var last := ops[|ops| - 1];
      if last.key == key && last.number <= t then Some(last) else Seen(ops[..|ops| - 1], key, t)
  }

  /** The value it answers with. */
  function Reads(ops: seq<Op>, key: Bytes, t: nat): Option<Bytes> {
    var op := Seen(ops, key, t);
    if op.Some? && op.value.Put? then Some(op.value.value) else None
  }

  predicate SameAt(a: seq<Op>, b: seq<Op>, key: Bytes, t: nat) {
    Seen(a, key, t) == Seen(b, key, t)
  }

  /** No read of any key at any time tells the lists apart. */
  ghost predicate Same(a: seq<Op>, b: seq<Op>) {
    forall key, t :: SameAt(a, b, key, t)
  }

  /** No read of this key does. */
  ghost predicate SameFor(a: seq<Op>, b: seq<Op>, key: Bytes) {
    forall t :: SameAt(a, b, key, t)
  }

  lemma {:induction false} SeenConcat(a: seq<Op>, b: seq<Op>, key: Bytes, t: nat)
    ensures Seen(a + b, key, t) == if Seen(b, key, t).Some? then Seen(b, key, t) else Seen(a, key, t)
  {
    if b == [] {
      assert a + b == a;
    } else {
      assert (a + b)[..|a + b| - 1] == a + b[..|b| - 1];
      SeenConcat(a, b[..|b| - 1], key, t);
    }
  }

  lemma {:induction false} SeenIsMember(ops: seq<Op>, key: Bytes, t: nat)
    ensures Seen(ops, key, t).Some? ==>
      var op := Seen(ops, key, t).value; op in ops && op.key == key && op.number <= t
  {
    if ops != [] {
      assert ops == ops[..|ops| - 1] + [ops[|ops| - 1]];
      SeenIsMember(ops[..|ops| - 1], key, t);
    }
  }

  lemma {:induction false} MemberIsSeen(ops: seq<Op>, op: Op, t: nat)
    requires op in ops && op.number <= t
    ensures Seen(ops, op.key, t).Some?
  {
    var n := |ops| - 1;
    assert ops == ops[..n] + [ops[n]];
    if ops[n] != op { MemberIsSeen(ops[..n], op, t); }
  }

  lemma SameAppend(a: seq<Op>, b: seq<Op>, x: seq<Op>)
    requires Same(a, b)
    ensures Same(a + x, b + x)
  {
    forall key, t ensures SameAt(a + x, b + x, key, t) {
      assert SameAt(a, b, key, t);
      SeenConcat(a, x, key, t);
      SeenConcat(b, x, key, t);
    }
  }

  lemma SameTransitive(a: seq<Op>, b: seq<Op>, c: seq<Op>)
    requires Same(a, b) && Same(b, c)
    ensures Same(a, c)
  {
    forall key, t ensures SameAt(a, c, key, t) {
      assert SameAt(a, b, key, t) && SameAt(b, c, key, t);
    }
  }

  // ---- attempts that wrote whole records ----

  predicate LastAttempt(tried: seq<Op>, p: seq<Op>, n: nat) {
    0 < n <= |tried| && n <= |p| && tried[|tried| - n..] == p[..n]
  }

  /** One after another, beginnings of p: what flushes of the buffer p left before they failed. */
  ghost predicate Attempts(tried: seq<Op>, p: seq<Op>) {
    tried == [] || exists n: nat :: LastAttempt(tried, p, n) && Attempts(tried[..|tried| - n], p)
  }

  lemma {:induction false} AttemptsMembers(tried: seq<Op>, p: seq<Op>)
    requires Attempts(tried, p)
    ensures forall op :: op in tried ==> op in p
  {
    if tried != [] {
      var n: nat :| LastAttempt(tried, p, n) && Attempts(tried[..|tried| - n], p);
      AttemptsMembers(tried[..|tried| - n], p);
      assert tried == tried[..|tried| - n] + p[..n];
    }
  }

  lemma {:induction false} AttemptsGrow(tried: seq<Op>, p: seq<Op>, x: Op)
    requires Attempts(tried, p)
    ensures Attempts(tried, p + [x])
  {
    if tried != [] {
      var n: nat :| LastAttempt(tried, p, n) && Attempts(tried[..|tried| - n], p);
      AttemptsGrow(tried[..|tried| - n], p, x);
      assert (p + [x])[..n] == p[..n];
      assert LastAttempt(tried, p + [x], n);
    }
  }

  lemma AttemptsAgain(tried: seq<Op>, p: seq<Op>, n: nat)
    requires Attempts(tried, p) && n <= |p|
    ensures Attempts(tried + p[..n], p)
  {
    var more := tried + p[..n];
    if n == 0 {
      assert more == tried;
    } else {
      assert more[..|more| - n] == tried;
      assert LastAttempt(more, p, n);
    }
  }

  /** A cut of such a list is one too. */
  lemma {:induction false} AttemptsCut(tried: seq<Op>, p: seq<Op>, j: nat)
    requires Attempts(tried, p) && j <= |tried|
    ensures Attempts(tried[..j], p)
  {
    if tried != [] {
      var n: nat :| LastAttempt(tried, p, n) && Attempts(tried[..|tried| - n], p);
      var m := |tried| - n;
      if j <= m {
        AttemptsCut(tried[..m], p, j);
        assert tried[..m][..j] == tried[..j];
      } else {
        AttemptsAgain(tried[..m], p, j - m);
        assert tried[m..] == p[..n];
        assert tried[..j] == tried[..m] + p[..j - m];
      }
    }
  }

  /** Once the whole buffer follows, the attempts before it make no difference. */
  lemma Absorbed(a: seq<Op>, tried: seq<Op>, p: seq<Op>)
    requires Attempts(tried, p)
    ensures Same(a + tried + p, a + p)
  {
    AttemptsMembers(tried, p);
    forall key, t ensures SameAt(a + tried + p, a + p, key, t) {
      SeenConcat(a + tried, p, key, t);
      SeenConcat(a, p, key, t);
      SeenConcat(a, tried, key, t);
      SeenIsMember(tried, key, t);
      if Seen(tried, key, t).Some? { MemberIsSeen(p, Seen(tried, key, t).value, t); }
    }
  }

  // ---- one key at a time ----

  predicate Ascends(ops: seq<Op>) {
    forall i, j :: 0 <= i < j < |ops| ==> ops[i].number < ops[j].number
  }

  predicate Mentions(ops: seq<Op>, key: Bytes) {
    exists i :: 0 <= i < |ops| && ops[i].key == key
  }

  lemma UnseenKey(ops: seq<Op>, key: Bytes, t: nat)
    requires !Mentions(ops, key)
    ensures Seen(ops, key, t) == None
  {
    SeenIsMember(ops, key, t);
  }

  /** The first operation on a key is the oldest. */
  lemma HiddenPrefix(p: seq<Op>, n: nat, op: Op, key: Bytes, t: nat)
    requires Ascends(p) && n <= |p| && op in p && op.key == key && op.number <= t && Mentions(p[..n], key)
    ensures Seen(p[..n], key, t).Some?
  {
    var i :| 0 <= i < n && p[..n][i].key == key;
    var j :| 0 <= j < |p| && p[j] == op;
    if j < i {
      assert p[..n][j] == op;
      MemberIsSeen(p[..n], op, t);
    } else {
      assert p[i].number <= t;
      MemberIsSeen(p[..n], p[..n][i], t);
    }
  }

  /** After any attempts a key reads as some beginning of the buffer makes it read. */
  lemma {:induction false} AttemptsPerKey(tried: seq<Op>, p: seq<Op>, key: Bytes) returns (k: nat)
    requires Attempts(tried, p) && Ascends(p)
    ensures k <= |p| && SameFor(tried, p[..k], key)
  {
    if tried == [] {
      k := 0;
      assert p[..0] == [];
      forall t ensures SameAt(tried, p[..k], key, t) {
      }
    } else {
      var n: nat :| LastAttempt(tried, p, n) && Attempts(tried[..|tried| - n], p);
      var before := tried[..|tried| - n];
      assert tried == before + p[..n];
      k := n;
      if !Mentions(p[..n], key) {
        k := AttemptsPerKey(before, p, key);
      }
      AttemptsMembers(before, p);
      forall t ensures SameAt(tried, p[..k], key, t) {
        LastAttemptSeen(before, p, n, key, t);
        if !Mentions(p[..n], key) {
          assert SameAt(before, p[..k], key, t);
        }
      }
    }
  }

  lemma LastAttemptSeen(before: seq<Op>, p: seq<Op>, n: nat, key: Bytes, t: nat)
    requires Ascends(p) && n <= |p| && forall op :: op in before ==> op in p
    ensures Seen(before + p[..n], key, t) == if Mentions(p[..n], key) then Seen(p[..n], key, t) else Seen(before, key, t)
  {
    SeenConcat(before, p[..n], key, t);
    SeenIsMember(before, key, t);
    if Mentions(p[..n], key) {
      if Seen(before, key, t).Some? {
        HiddenPrefix(p, n, Seen(before, key, t).value, key, t);
      }
    } else {
      UnseenKey(p[..n], key, t);
    }
  }

  lemma SameForAppend(a: seq<Op>, x: seq<Op>, y: seq<Op>, key: Bytes)
    requires SameFor(x, y, key)
    ensures SameFor(a + x, a + y, key)
  {
    forall t ensures SameAt(a + x, a + y, key, t) {
      assert SameAt(x, y, key, t);
      SeenConcat(a, x, key, t);
      SeenConcat(a, y, key, t);
    }
  }

  lemma SameForTransitive(a: seq<Op>, b: seq<Op>, c: seq<Op>, key: Bytes)
    requires Same(a, b) && SameFor(b, c, key)
    ensures SameFor(a, c, key)
  {
    forall t ensures SameAt(a, c, key, t) {
      assert SameAt(a, b, key, t) && SameAt(b, c, key, t);
    }
  }
}
