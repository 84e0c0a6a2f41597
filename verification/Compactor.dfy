/** Merging the version lists of two tables (src/compactor.cpp). */
module Compactor {
  import opened Mvcc

  predicate Sorted(vs: seq<Version>) {
    forall i, j :: 0 <= i < j < |vs| ==> vs[i].timestamp <= vs[j].timestamp
  }

  /** Keep the first version of every run with the same timestamp. */
  function Unique(vs: seq<Version>): seq<Version> {
    if |vs| <= 1 then vs
    else if vs[|vs| - 1].timestamp == vs[|vs| - 2].timestamp then Unique(vs[..|vs| - 1])
    else Unique(vs[..|vs| - 1]) + [vs[|vs| - 1]]
  }

  /** std::sort may choose any order among equal timestamps. */
  ghost predicate IsMerge(all: seq<Version>, merged: seq<Version>) {
    exists p :: SortOf(all, p) && merged == Unique(p)
  }

  ghost predicate SortOf(all: seq<Version>, p: seq<Version>) {
    multiset(p) == multiset(all) && Sorted(p)
  }

  /** The table a compaction of `older` and `newer` may write. */
  ghost predicate IsCompaction(older: Entries, newer: Entries, out: Entries) {
    forall key :: IsMerge(VersionsOf(older, key) + VersionsOf(newer, key), VersionsOf(out, key))
  }

  // ---- what a merge keeps ----

  /** Equal timestamps only occur on equal versions. */
  ghost predicate Agree(vs: seq<Version>) {
    forall v, w :: v in vs && w in vs && v.timestamp == w.timestamp ==> v == w
  }

  lemma AppendIncreasing(u: seq<Version>, v: Version)
    requires Increasing(u) && (u != [] ==> u[|u| - 1].timestamp < v.timestamp)
    ensures Increasing(u + [v])
  {
    assert forall i :: 0 <= i < |u| ==> u[i].timestamp <= u[|u| - 1].timestamp;
  }

  lemma {:induction false} UniqueIncreasing(p: seq<Version>)
    requires Sorted(p)
    ensures Increasing(Unique(p))
    ensures p != [] ==> Unique(p) != [] && Unique(p)[|Unique(p)| - 1].timestamp == p[|p| - 1].timestamp
  {
    if |p| > 1 {
      var front, last := p[..|p| - 1], p[|p| - 1];
      UniqueIncreasing(front);
      assert front[|front| - 1] == p[|p| - 2];
      if p[|p| - 2].timestamp != last.timestamp {
        AppendIncreasing(Unique(front), last);
      }
    }
  }

  lemma {:induction false} UniqueMembers(p: seq<Version>)
    requires Agree(p)
    ensures forall v :: v in Unique(p) <==> v in p
  {
    if |p| > 1 {
      var front, last := p[..|p| - 1], p[|p| - 1];
      assert p == front + [last];
      UniqueMembers(front);
      assert front[|front| - 1] == p[|p| - 2];
      assert p[|p| - 2] in front;
    }
  }

  lemma SameMembers(a: seq<Version>, b: seq<Version>)
    requires multiset(a) == multiset(b)
    ensures forall v :: v in a <==> v in b
  {
    assert forall v :: v in a <==> v in multiset(a);
    assert forall v :: v in b <==> v in multiset(b);
  }

  lemma SameBest(a: seq<Version>, b: seq<Version>, t: nat)
    requires Agree(a) && forall v :: v in a <==> v in b
    ensures Best(a, t) == Best(b, t)
  {
    BestIsVisible(a, t);
    BestIsVisible(b, t);
  }

  lemma {:induction false} UniqueSubset(p: seq<Version>)
    ensures forall v :: v in Unique(p) ==> v in p
  {
    if |p| > 1 {
      assert p == p[..|p| - 1] + [p[|p| - 1]];
      UniqueSubset(p[..|p| - 1]);
    }
  }

  lemma MergeAddsNothing(all: seq<Version>, merged: seq<Version>)
    requires IsMerge(all, merged)
    ensures forall v :: v in merged ==> v in all
  {
    var p :| SortOf(all, p) && merged == Unique(p);
    SameMembers(p, all);
    UniqueSubset(p);
  }

  /** A merge loses no version: every read sees in it what it would see in all the inputs together. */
  lemma MergeKeepsReads(all: seq<Version>, merged: seq<Version>, t: nat)
    requires IsMerge(all, merged) && Agree(all)
    ensures Increasing(merged)
    ensures forall v :: v in merged <==> v in all
    ensures Newest(merged, t) == BestResult(all, t)
  {
    var p :| SortOf(all, p) && merged == Unique(p);
    SameMembers(p, all);
    UniqueIncreasing(p);
    UniqueMembers(p);
    SameBest(merged, all, t);
    BestIsNewest(merged, t);
  }

  lemma SameLast(x: seq<Version>, y: seq<Version>)
    requires Increasing(x) && Increasing(y) && x != [] && y != []
    requires forall v :: v in x <==> v in y
    ensures x[|x| - 1] == y[|y| - 1]
  {
    var a, b := x[|x| - 1], y[|y| - 1];
    assert a in x && b in y;
    var i :| 0 <= i < |x| && x[i] == b;
    var j :| 0 <= j < |y| && y[j] == a;
  }

  /** Increasing versions are determined by their members. */
  lemma {:induction false} IncreasingSame(x: seq<Version>, y: seq<Version>)
    requires Increasing(x) && Increasing(y)
    requires forall v :: v in x <==> v in y
    ensures x == y
  {
    if y != [] {
      assert y[0] in x;
    }
    if x != [] {
      assert x[0] in y;
      SameLast(x, y);
      var xs, ys, last := x[..|x| - 1], y[..|y| - 1], x[|x| - 1];
      assert x == xs + [last] && y == ys + [last];
      assert last !in xs && last !in ys;
      forall v ensures v in xs <==> v in ys {
        assert v in xs <==> v in x && v != last;
        assert v in ys <==> v in y && v != last;
      }
      IncreasingSame(xs, ys);
    }
  }

  /** A merge of increasing versions leaves them as they are. */
  lemma MergeOfIncreasing(x: seq<Version>, merged: seq<Version>)
    requires Increasing(x) && IsMerge(x, merged)
    ensures merged == x
  {
    var p :| SortOf(x, p) && merged == Unique(p);
    SameMembers(p, x);
    UniqueIncreasing(p);
    UniqueMembers(p);
    IncreasingSame(merged, x);
  }

  /** When every version of the newer table is newer, compaction is concatenation. */
  lemma CompactionConcatenates(older: Entries, newer: Entries, out: Entries, a: seq<Write>, b: seq<Write>)
    requires IsCompaction(older, newer, out)
    requires Holds(older, a) && Holds(newer, b) && IncreasingWrites(a + b)
    ensures Holds(out, a + b)
  {
    forall key ensures HoldsAt(out, a + b, key) {
      assert HoldsAt(older, a, key) && HoldsAt(newer, b, key);
      HistoryConcat(a, b, key);
      HistoryIncreasing(a + b, key);
      MergeOfIncreasing(VersionsOf(older, key) + VersionsOf(newer, key), VersionsOf(out, key));
    }
  }

  // ---- the compactor itself ----

  method InsertVersion(s: seq<Version>, v: Version) returns (r: seq<Version>)
    requires Sorted(s)
    ensures Sorted(r) && multiset(r) == multiset(s) + multiset{v}
  {
    var k := |s|;
    while k > 0 && s[k - 1].timestamp > v.timestamp
      invariant 0 <= k <= |s|
      invariant forall j :: k <= j < |s| ==> s[j].timestamp > v.timestamp
    {
      k := k - 1;
    }
    r := s[..k] + [v] + s[k..];
    JoinSorted(s[..k], [v]);
    JoinSorted(s[..k] + [v], s[k..]);
    SplitMultiset(s, k, v);
  }

  lemma JoinSorted(a: seq<Version>, b: seq<Version>)
    requires Sorted(a) && Sorted(b)
    requires a != [] && b != [] ==> a[|a| - 1].timestamp <= b[0].timestamp
    ensures Sorted(a + b)
  {
    forall i, j | 0 <= i < j < |a + b| ensures (a + b)[i].timestamp <= (a + b)[j].timestamp {
      if i < |a| <= j {
        assert a[i].timestamp <= a[|a| - 1].timestamp <= b[0].timestamp <= b[j - |a|].timestamp;
      }
    }
  }

  lemma SplitMultiset(s: seq<Version>, k: nat, v: Version)
    requires k <= |s|
    ensures multiset(s[..k] + [v] + s[k..]) == multiset(s) + multiset{v}
  {
    assert s == s[..k] + s[k..];
  }

  method SortVersions(vs: seq<Version>) returns (r: seq<Version>)
    ensures SortOf(vs, r)
  {
    r := [];
    for i := 0 to |vs|
      invariant SortOf(vs[..i], r)
    {
      r := InsertVersion(r, vs[i]);
      assert vs[..i + 1] == vs[..i] + [vs[i]];
    }
    assert vs[..|vs|] == vs;
  }

  method EraseDuplicates(vs: seq<Version>) returns (r: seq<Version>)
    requires Sorted(vs)
    ensures r == Unique(vs)
  {
    r := [];
    for i := 0 to |vs|
      invariant r == Unique(vs[..i])
      invariant i > 0 ==> r != [] && r[|r| - 1].timestamp == vs[i - 1].timestamp
    {
      assert vs[..i + 1][..i] == vs[..i];
      if r == [] || r[|r| - 1].timestamp != vs[i].timestamp {
        r := r + [vs[i]];
      }
    }
    assert vs[..|vs|] == vs;
  }

  ghost predicate MergedAt(merged: Entries, out: Entries, key: string) {
    IsMerge(VersionsOf(merged, key), VersionsOf(out, key))
  }

  lemma MergedNext(merged: Entries, out: Entries, key: string, vs: seq<Version>, more: Entries)
    requires forall k :: k in out ==> MergedAt(merged, out, k)
    requires IsMerge(VersionsOf(merged, key), vs) && more == out[key := vs]
    ensures forall k :: k in more ==> MergedAt(merged, more, k)
  {
    forall k | k in more ensures MergedAt(merged, more, k) {
      if k != key { assert MergedAt(merged, out, k); }
    }
  }

  method MergeOne(vs: seq<Version>) returns (out: seq<Version>)
    ensures IsMerge(vs, out)
  {
    var sorted := SortVersions(vs);
    out := EraseDuplicates(sorted);
  }

  /** Sort and deduplicate the version list of every key that was loaded. */
  method MergeAll(merged: Entries) returns (out: Entries)
    ensures forall key :: IsMerge(VersionsOf(merged, key), VersionsOf(out, key))
    ensures out.Keys == merged.Keys
  {
    out := map[];
    var rest := merged.Keys;
    while rest != {}
      invariant rest <= merged.Keys && out.Keys == merged.Keys - rest
      invariant forall key :: key in out ==> MergedAt(merged, out, key)
      decreases |rest|
    {
      if forall q :: q !in rest { assert false; }
      var key :| key in rest;
      var unique := MergeOne(merged[key]);
      MergedNext(merged, out, key, unique, out[key := unique]);
      out := out[key := unique];
      rest := rest - {key};
    }
    forall key ensures IsMerge(VersionsOf(merged, key), VersionsOf(out, key)) {
      if key in out {
        assert MergedAt(merged, out, key);
      } else {
        assert SortOf([], []) && Unique([]) == [];
      }
    }
  }
}
