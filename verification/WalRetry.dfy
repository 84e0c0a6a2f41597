/** When what failed flushes of a buffer left on the file reads as one prefix of that buffer. */
module WalRetry {
  import opened Options
  import opened Crc
  import opened WalRecords
  import opened WalReads

  /** Every number in b is above every number in a. */
  predicate Below(a: seq<Op>, b: seq<Op>) {
    forall i, j :: 0 <= i < |a| && 0 <= j < |b| ==> a[i].number < b[j].number
  }

  /** A read at its own number finds operation x of the buffer among the records r. */
  predicate Kept(r: seq<Op>, p: seq<Op>, x: nat)
    requires x < |p|
  {
    Seen(r, p[x].key, p[x].number) == Some(p[x])
  }

  /** No operation is kept behind one that is not. */
  ghost predicate Gapless(r: seq<Op>, p: seq<Op>) {
    forall x: nat, y: nat :: x < y < |p| && Kept(r, p, y) ==> Kept(r, p, x)
  }

  /** The records r behind a read as a prefix of the buffer behind a does. */
  ghost predicate ReadsAsPrefix(a: seq<Op>, r: seq<Op>, p: seq<Op>) {
    exists k: nat :: k <= |p| && Same(a + r, a + p[..k])
  }

  lemma SeenPart(q: seq<Op>, i: nat, k: nat, key: Bytes, t: nat)
    requires i <= k <= |q| && !Mentions(q[i..k], key)
    ensures Seen(q[..i], key, t) == Seen(q[..k], key, t)
  {
    assert q[..k] == q[..i] + q[i..k];
    SeenConcat(q[..i], q[i..k], key, t);
    UnseenKey(q[i..k], key, t);
  }

  /** A prefix of the buffer keeps exactly its own operations. */
  lemma PrefixKeeps(p: seq<Op>, k: nat, x: nat)
    requires Ascends(p) && k <= |p| && x < |p|
    ensures Kept(p[..k], p, x) <==> x < k
  {
    var op := p[x];
    if x < k {
      assert p[..k] == p[..x + 1] + p[x + 1..k];
      SeenConcat(p[..x + 1], p[x + 1..k], op.key, op.number);
      SeenIsMember(p[x + 1..k], op.key, op.number);
    } else {
      SeenIsMember(p[..k], op.key, op.number);
    }
  }

  /** Older records in front make no difference. */
  lemma KeptBehind(a: seq<Op>, r: seq<Op>, p: seq<Op>, x: nat)
    requires Below(a, p) && x < |p|
    ensures Kept(a + r, p, x) <==> Kept(r, p, x)
  {
    SeenConcat(a, r, p[x].key, p[x].number);
    SeenIsMember(a, p[x].key, p[x].number);
  }

  lemma PrefixIsGapless(a: seq<Op>, r: seq<Op>, p: seq<Op>, k: nat)
    requires Ascends(p) && Below(a, p) && k <= |p| && Same(a + r, a + p[..k])
    ensures Gapless(r, p)
  {
    forall x: nat | x < |p| ensures Kept(r, p, x) <==> x < k {
      assert SameAt(a + r, a + p[..k], p[x].key, p[x].number);
      KeptBehind(a, r, p, x);
      KeptBehind(a, p[..k], p, x);
      PrefixKeeps(p, k, x);
    }
  }

  /** How many operations are kept. */
  lemma {:induction false} KeptCount(r: seq<Op>, p: seq<Op>, from: nat) returns (k: nat)
    requires Gapless(r, p) && from <= |p| && forall x: nat :: x < from ==> Kept(r, p, x)
    ensures k <= |p| && forall x: nat :: x < |p| ==> (Kept(r, p, x) <==> x < k)
    decreases |p| - from
  {
    k := from;
    if from < |p| && Kept(r, p, from) {
      k := KeptCount(r, p, from + 1);
    }
  }

  /** On each key the records read as a prefix, and all these prefixes end at the same place. */
  lemma KeptReads(r: seq<Op>, p: seq<Op>, k: nat, key: Bytes, t: nat)
    requires Attempts(r, p) && Ascends(p) && k <= |p| && forall x: nat :: x < |p| ==> (Kept(r, p, x) <==> x < k)
    ensures SameAt(r, p[..k], key, t)
  {
    var n := AttemptsPerKey(r, p, key);
    forall x: nat | x < |p| && p[x].key == key ensures x < n <==> x < k {
      assert SameAt(r, p[..n], key, p[x].number);
      assert Kept(r, p, x) <==> x < k;
      PrefixKeeps(p, n, x);
    }
    assert SameAt(r, p[..n], key, t);
    if n <= k {
      assert !Mentions(p[n..k], key);
      SeenPart(p, n, k, key, t);
    } else {
      assert !Mentions(p[k..n], key);
      SeenPart(p, k, n, key, t);
    }
  }

  lemma GaplessReads(a: seq<Op>, r: seq<Op>, p: seq<Op>)
    requires Attempts(r, p) && Ascends(p) && Gapless(r, p)
    ensures ReadsAsPrefix(a, r, p)
  {
    var k := KeptCount(r, p, 0);
    forall key, t ensures SameAt(a + r, a + p[..k], key, t) {
      KeptReads(r, p, k, key, t);
      SeenConcat(a, r, key, t);
      SeenConcat(a, p[..k], key, t);
    }
    assert Same(a + r, a + p[..k]);
  }

  /** Whatever failed flushes of a buffer left reads as one prefix of it if and only if it has no gap. */
  lemma PrefixIff(a: seq<Op>, r: seq<Op>, p: seq<Op>)
    requires Attempts(r, p) && Ascends(p) && Below(a, p)
    ensures ReadsAsPrefix(a, r, p) <==> Gapless(r, p)
  {
    if Gapless(r, p) {
      GaplessReads(a, r, p);
    }
    if ReadsAsPrefix(a, r, p) {
      var k: nat :| k <= |p| && Same(a + r, a + p[..k]);
      PrefixIsGapless(a, r, p, k);
    }
  }

  // ---- one more flush of the same buffer ----

  /** With j records more, operation x can be read: as one of these, or as it was if they leave its key alone. */
  predicate InView(r: seq<Op>, p: seq<Op>, j: nat, x: nat)
    requires j <= |p| && x < |p|
  {
    if Mentions(p[..j], p[x].key) then x < j else Kept(r, p, x)
  }

  /** At every place of the next flush, no operation can be read behind one that cannot. */
  ghost predicate Orderly(r: seq<Op>, p: seq<Op>) {
    forall j: nat, x: nat, y: nat :: j <= |p| && x < y < |p| && InView(r, p, j, y) ==> InView(r, p, j, x)
  }

  lemma KeptAfter(r: seq<Op>, p: seq<Op>, j: nat, x: nat)
    requires Attempts(r, p) && Ascends(p) && j <= |p| && x < |p|
    ensures Kept(r + p[..j], p, x) <==> InView(r, p, j, x)
  {
    AttemptsMembers(r, p);
    LastAttemptSeen(r, p, j, p[x].key, p[x].number);
    PrefixKeeps(p, j, x);
  }

  lemma GaplessAfter(r: seq<Op>, p: seq<Op>, j: nat)
    requires Attempts(r, p) && Ascends(p) && j <= |p|
    ensures Gapless(r + p[..j], p) <==> forall x: nat, y: nat :: x < y < |p| && InView(r, p, j, y) ==> InView(r, p, j, x)
  {
    forall x: nat | x < |p| ensures Kept(r + p[..j], p, x) <==> InView(r, p, j, x) {
      KeptAfter(r, p, j, x);
    }
  }

  /**
   Wherever a crash cuts the next flush of a buffer, after any number of failed ones, a prefix of the
   operations is recovered, if and only if what they left is orderly.
   */
  lemma RetryCutsIff(a: seq<Op>, r: seq<Op>, p: seq<Op>)
    requires Attempts(r, p) && Ascends(p) && Below(a, p)
    ensures (forall j: nat :: j <= |p| ==> ReadsAsPrefix(a, r + p[..j], p)) <==> Orderly(r, p)
  {
    forall j: nat | j <= |p|
      ensures ReadsAsPrefix(a, r + p[..j], p) <==> forall x: nat, y: nat :: x < y < |p| && InView(r, p, j, y) ==> InView(r, p, j, x)
    {
      AttemptsAgain(r, p, j);
      PrefixIff(a, r + p[..j], p);
      GaplessAfter(r, p, j);
    }
  }
}
