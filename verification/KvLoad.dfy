/** What the store's put and del do to the memtable's size, and when del reports success (src/kv_store.cpp). */
module KvLoads {
  import opened Options
  import opened Mvcc
  import opened LsmStore

  /** Bytes in the memtable, and whether the slot behind it is taken. */
  datatype Load = Load(bytes: nat, slotTaken: bool)

  function LoadOf(s: Store): Load {
    Load(s.memBytes, s.slot.Some?)
  }

  /** One entry of this size goes in: the memtable is handed over when it is full and the slot is free. */
  function AfterEntry(l: Load, size: nat): Load {
    var b := l.bytes + size;
    if b < FLUSH_THRESHOLD || l.slotTaken then l.(bytes := b) else Load(0, true)
  }

  /** The entry goes in either way; a full memtable in front of a taken slot makes the call report failure. */
  predicate Accepted(l: Load, size: nat) {
    l.bytes + size < FLUSH_THRESHOLD || !l.slotTaken
  }

  /** These are the sizes of the protocol model. */
  lemma DelLoads(s: Store, key: string)
    requires s.phase == Ready && key in s.latest
    ensures LoadOf(DoDel(s, key, true)) == AfterEntry(LoadOf(s), |key| + TIMESTAMP_BYTES + s.versionBytes)
  {
    var s1 := LsmStore.Record(s.(lastSeq := s.lastSeq + 1), Write(key, Version(s.lastSeq + 1, None)));
    assert key in s1.mem;
  }

  lemma PutLoads(s: Store, key: string, value: string)
    requires s.phase == Ready
    ensures LoadOf(DoPut(s, key, value, true)) == AfterEntry(LoadOf(s), |key| + |value| + TIMESTAMP_BYTES + s.versionBytes)
  {
    var s1 := LsmStore.Record(s.(lastSeq := s.lastSeq + 1), Write(key, Version(s.lastSeq + 1, Some(value))));
    assert key in s1.mem;
  }

  // ---- many entries ----

  function LoadAfter(l: Load, sizes: seq<nat>): Load {
    if sizes == [] then l else AfterEntry(LoadAfter(l, sizes[..|sizes| - 1]), sizes[|sizes| - 1])
  }

  function Sum(sizes: seq<nat>): nat {
    if sizes == [] then 0 else Sum(sizes[..|sizes| - 1]) + sizes[|sizes| - 1]
  }

  /** How many of the deletions of these sizes report success; `log(i)` is the answer of the i-th group commit, true when none is due. */
  function Successes(l: Load, sizes: seq<nat>, log: nat -> bool): (n: nat)
    ensures n <= |sizes|
  {
    if sizes == [] then 0
    else
      var n := |sizes| - 1;
      Successes(l, sizes[..n], log) + if Accepted(LoadAfter(l, sizes[..n]), sizes[n]) && log(n) then 1 else 0
  }

  /** The entry at i hands the memtable over. */
  predicate HandsOver(l: Load, sizes: seq<nat>, i: nat)
    requires i < |sizes|
  {
    FLUSH_THRESHOLD <= l.bytes + Sum(sizes[..i + 1]) && (i == 0 || l.bytes + Sum(sizes[..i]) < FLUSH_THRESHOLD)
  }

  /**
   With the slot taken everything must still fit; with the slot free what comes after the hand-over
   must fit into the new memtable.
   */
  ghost predicate HasRoom(l: Load, sizes: seq<nat>) {
    || sizes == []
    || l.bytes + Sum(sizes) < FLUSH_THRESHOLD
    || (!l.slotTaken && exists i :: 0 <= i < |sizes| && HandsOver(l, sizes, i) && Sum(sizes[i + 1..]) < FLUSH_THRESHOLD)
  }

  ghost predicate LogAnswers(log: nat -> bool, n: nat) {
    forall i: nat :: i < n ==> log(i)
  }

  /** No deletion is refused for lack of room. */
  ghost predicate AllAccepted(l: Load, sizes: seq<nat>) {
    forall i :: 0 <= i < |sizes| ==> AcceptedAt(l, sizes, i)
  }

  predicate AcceptedAt(l: Load, sizes: seq<nat>, i: nat)
    requires i < |sizes|
  {
    Accepted(LoadAfter(l, sizes[..i]), sizes[i])
  }

  lemma AcceptedSplit(l: Load, sizes: seq<nat>)
    requires sizes != []
    ensures AllAccepted(l, sizes) <==> AllAccepted(l, sizes[..|sizes| - 1]) && AcceptedAt(l, sizes, |sizes| - 1)
  {
    var n := |sizes| - 1;
    var front := sizes[..n];
    forall i | 0 <= i < n ensures AcceptedAt(l, sizes, i) == AcceptedAt(l, front, i) {
      assert sizes[..i] == front[..i];
    }
    assert AllAccepted(l, sizes) ==> forall i :: 0 <= i < n ==> AcceptedAt(l, sizes, i);
    assert AllAccepted(l, front) ==> forall i :: 0 <= i < n ==> AcceptedAt(l, front, i);
  }

  lemma {:induction false} AllSucceedIff(l: Load, sizes: seq<nat>, log: nat -> bool)
    ensures Successes(l, sizes, log) == |sizes| <==> AllAccepted(l, sizes) && LogAnswers(log, |sizes|)
  {
    if sizes != [] {
      AllSucceedIff(l, sizes[..|sizes| - 1], log);
      AcceptedSplit(l, sizes);
    }
  }

  lemma {:induction false} SumPrefix(sizes: seq<nat>, i: nat)
    requires i <= |sizes|
    ensures Sum(sizes) == Sum(sizes[..i]) + Sum(sizes[i..])
  {
    if i == |sizes| {
      assert sizes[..i] == sizes && sizes[i..] == [];
    } else {
      var front := sizes[..|sizes| - 1];
      SumPrefix(front, i);
      assert front[..i] == sizes[..i];
      assert sizes[i..][..|sizes| - i - 1] == front[i..];
    }
  }

  /** With the slot taken the memtable only grows. */
  lemma {:induction false} TakenLoad(l: Load, sizes: seq<nat>)
    requires l.slotTaken
    ensures LoadAfter(l, sizes) == Load(l.bytes + Sum(sizes), true)
  {
    if sizes != [] { TakenLoad(l, sizes[..|sizes| - 1]); }
  }

  lemma TakenIff(l: Load, sizes: seq<nat>)
    requires l.slotTaken
    ensures AllAccepted(l, sizes) <==> sizes == [] || l.bytes + Sum(sizes) < FLUSH_THRESHOLD
  {
    if sizes != [] {
      var n := |sizes| - 1;
      TakenLoad(l, sizes[..n]);
      assert AllAccepted(l, sizes) ==> AcceptedAt(l, sizes, n);
      if l.bytes + Sum(sizes) < FLUSH_THRESHOLD {
        forall i | 0 <= i < |sizes| ensures AcceptedAt(l, sizes, i) {
          TakenLoad(l, sizes[..i]);
          assert sizes[..i + 1][..i] == sizes[..i];
          SumPrefix(sizes, i + 1);
        }
      }
    }
  }

  /** With the slot free nothing is refused up to the hand-over. */
  lemma {:induction false} FreeLoad(l: Load, sizes: seq<nat>)
    requires !l.slotTaken && (sizes == [] || l.bytes + Sum(sizes) < FLUSH_THRESHOLD)
    ensures LoadAfter(l, sizes) == Load(l.bytes + Sum(sizes), false)
  {
    if sizes != [] { FreeLoad(l, sizes[..|sizes| - 1]); }
  }

  lemma {:induction false} FindHandOver(l: Load, sizes: seq<nat>) returns (i: nat)
    requires sizes != [] && l.bytes + Sum(sizes) >= FLUSH_THRESHOLD
    ensures i < |sizes| && HandsOver(l, sizes, i)
  {
    var n := |sizes| - 1;
    if n == 0 || l.bytes + Sum(sizes[..n]) < FLUSH_THRESHOLD {
      i := n;
      assert sizes[..n + 1] == sizes;
    } else {
      i := FindHandOver(l, sizes[..n]);
      assert sizes[..n][..i] == sizes[..i] && sizes[..n][..i + 1] == sizes[..i + 1];
    }
  }

  lemma HandOverUnique(l: Load, sizes: seq<nat>, i: nat, j: nat)
    requires i <= j < |sizes| && HandsOver(l, sizes, i) && HandsOver(l, sizes, j)
    ensures i == j
  {
    if i < j {
      assert sizes[..j][..i + 1] == sizes[..i + 1];
      SumPrefix(sizes[..j], i + 1);
    }
  }

  lemma HandOverLoad(l: Load, sizes: seq<nat>, i: nat)
    requires !l.slotTaken && i < |sizes| && HandsOver(l, sizes, i)
    ensures LoadAfter(l, sizes[..i + 1]) == Load(0, true)
    ensures forall j :: 0 <= j <= i ==> AcceptedAt(l, sizes, j)
  {
    FreeLoad(l, sizes[..i]);
    assert sizes[..i + 1][..i] == sizes[..i];
    forall j | 0 <= j <= i ensures AcceptedAt(l, sizes, j) {
      if j > 0 {
        SumPrefix(sizes[..i], j);
        assert sizes[..i][..j] == sizes[..j];
      }
      FreeLoad(l, sizes[..j]);
    }
  }

  lemma {:induction false} LoadConcat(l: Load, a: seq<nat>, b: seq<nat>)
    ensures LoadAfter(l, a + b) == LoadAfter(LoadAfter(l, a), b)
  {
    if b == [] {
      assert a + b == a;
    } else {
      assert (a + b)[..|a + b| - 1] == a + b[..|b| - 1];
      LoadConcat(l, a, b[..|b| - 1]);
    }
  }

  /** Behind the hand-over the rest meets a taken slot and an empty memtable. */
  lemma FreeIff(l: Load, sizes: seq<nat>, i: nat)
    requires !l.slotTaken && i < |sizes| && HandsOver(l, sizes, i)
    ensures AllAccepted(l, sizes) <==> Sum(sizes[i + 1..]) < FLUSH_THRESHOLD
  {
    var rest, mid := sizes[i + 1..], Load(0, true);
    HandOverLoad(l, sizes, i);
    forall j | 0 <= j < |rest| ensures AcceptedAt(mid, rest, j) == AcceptedAt(l, sizes, i + 1 + j) {
      assert sizes[..i + 1 + j] == sizes[..i + 1] + rest[..j];
      LoadConcat(l, sizes[..i + 1], rest[..j]);
    }
    if AllAccepted(l, sizes) {
      forall j | 0 <= j < |rest| ensures AcceptedAt(mid, rest, j) {
        assert AcceptedAt(l, sizes, i + 1 + j);
      }
    }
    if AllAccepted(mid, rest) {
      forall j | 0 <= j < |sizes| ensures AcceptedAt(l, sizes, j) {
        if j > i { assert AcceptedAt(mid, rest, j - i - 1); }
      }
    }
    TakenIff(mid, rest);
  }

  lemma FreeFits(l: Load, sizes: seq<nat>)
    requires !l.slotTaken && l.bytes + Sum(sizes) < FLUSH_THRESHOLD
    ensures AllAccepted(l, sizes)
  {
    forall j | 0 <= j < |sizes| ensures AcceptedAt(l, sizes, j) {
      SumPrefix(sizes, j);
      FreeLoad(l, sizes[..j]);
    }
  }

  /** Deletions all report success exactly when there is room for their tombstones and the log answers. */
  lemma AllCountedIff(l: Load, sizes: seq<nat>, log: nat -> bool)
    ensures Successes(l, sizes, log) == |sizes| <==> HasRoom(l, sizes) && LogAnswers(log, |sizes|)
  {
    AllSucceedIff(l, sizes, log);
    if l.slotTaken {
      TakenIff(l, sizes);
    } else if sizes != [] {
      if l.bytes + Sum(sizes) < FLUSH_THRESHOLD {
        FreeFits(l, sizes);
      } else {
        var i := FindHandOver(l, sizes);
        FreeIff(l, sizes, i);
        forall j | 0 <= j < |sizes| && HandsOver(l, sizes, j) ensures j == i {
          if i <= j { HandOverUnique(l, sizes, i, j); } else { HandOverUnique(l, sizes, j, i); }
        }
      }
    }
  }

  /** A full memtable in front of a taken slot: every deletion removes its key and none is counted. */
  lemma {:induction false} NoneCounted(l: Load, sizes: seq<nat>, log: nat -> bool)
    requires l.slotTaken && l.bytes >= FLUSH_THRESHOLD
    ensures Successes(l, sizes, log) == 0
  {
    if sizes != [] {
      NoneCounted(l, sizes[..|sizes| - 1], log);
      TakenLoad(l, sizes[..|sizes| - 1]);
    }
  }

  /** Entries that reach the threshold leave the slot taken. */
  lemma ManyTake(l: Load, sizes: seq<nat>)
    requires sizes != [] && l.bytes + Sum(sizes) >= FLUSH_THRESHOLD
    ensures LoadAfter(l, sizes).slotTaken
  {
    if l.slotTaken {
      TakenLoad(l, sizes);
    } else {
      var i := FindHandOver(l, sizes);
      HandOverLoad(l, sizes, i);
      assert sizes == sizes[..i + 1] + sizes[i + 1..];
      LoadConcat(l, sizes[..i + 1], sizes[i + 1..]);
      TakenLoad(Load(0, true), sizes[i + 1..]);
    }
  }

  /** Twice as many fill the memtable behind it. */
  lemma TwiceFills(l: Load, a: seq<nat>, b: seq<nat>)
    requires a != [] && Sum(a) >= FLUSH_THRESHOLD && Sum(b) >= FLUSH_THRESHOLD
    ensures var l' := LoadAfter(LoadAfter(l, a), b); l'.slotTaken && l'.bytes >= FLUSH_THRESHOLD
  {
    ManyTake(l, a);
    TakenLoad(LoadAfter(l, a), b);
  }

  /** Two large writes in a row lead there: nothing but a read drains the first flush. */
  lemma TwoWritesFill(vb: nat, key: string, value: string)
    requires |key| + |value| + TIMESTAMP_BYTES + vb >= FLUSH_THRESHOLD
    ensures var s := DoPut(DoPut(Empty(vb), key, value, true), key, value, true);
      LoadOf(s).slotTaken && LoadOf(s).bytes >= FLUSH_THRESHOLD
  {
    PutLoads(Empty(vb), key, value);
    PutLoads(DoPut(Empty(vb), key, value, true), key, value);
  }
}
