/** File names of flushed and compacted tables (src/kv_store.cpp). */
module TableNames {
  import opened Decimal

  function FlushName(id: nat): string {
    "/tmp/veristore-" + ToString(id) + ".sst"
  }

  function CompactName(id: nat): string {
    "/tmp/veristore-compacted-" + ToString(id) + ".sst"
  }

  function TmpName(path: string): string {
    path + ".tmp"
  }

  /** The name was made from an id below `next`. */
  ghost predicate Named(path: string, next: nat) {
    exists id: nat :: id < next && (path == FlushName(id) || path == CompactName(id))
  }

  lemma FlushNameInjective(i: nat, j: nat)
    requires FlushName(i) == FlushName(j)
    ensures i == j
  {
    MiddleEqual("/tmp/veristore-", ToString(i), ToString(j), ".sst");
    ToStringInjective(i, j);
  }

  lemma CompactNameInjective(i: nat, j: nat)
    requires CompactName(i) == CompactName(j)
    ensures i == j
  {
    MiddleEqual("/tmp/veristore-compacted-", ToString(i), ToString(j), ".sst");
    ToStringInjective(i, j);
  }

  lemma MiddleEqual(pre: string, a: string, b: string, post: string)
    requires pre + a + post == pre + b + post
    ensures a == b
  {
    assert |pre + a + post| == |pre + b + post|;
    assert a == (pre + a + post)[|pre|..|pre| + |a|];
    assert b == (pre + b + post)[|pre|..|pre| + |b|];
  }

  /** A flushed table is never named like a compacted one: a digit is not a 'c'. */
  lemma NamesDiffer(i: nat, j: nat)
    ensures FlushName(i) != CompactName(j)
  {
    var f, c := FlushName(i), CompactName(j);
    assert f[|"/tmp/veristore-"|] == ToString(i)[0];
    assert c[|"/tmp/veristore-"|] == 'c';
  }

  lemma TmpIsNoTable(path: string, next: nat)
    requires Named(path, next)
    ensures forall p: string :: TmpName(p) != path
  {
    assert path[|path| - 1] == 't';
    forall p: string ensures TmpName(p) != path {
      assert TmpName(p)[|TmpName(p)| - 1] == 'p';
    }
  }

  lemma NamedMore(path: string, next: nat, more: nat)
    requires Named(path, next) && next <= more
    ensures Named(path, more)
  {
  }

  /** Names made from the next id are new. */
  lemma NextNameFresh(path: string, next: nat)
    requires Named(path, next)
    ensures path != FlushName(next) && path != CompactName(next)
  {
    var id: nat :| id < next && (path == FlushName(id) || path == CompactName(id));
    NamesDiffer(id, next);
    NamesDiffer(next, id);
    if path == FlushName(next) { FlushNameInjective(id, next); }
    if path == CompactName(next) { CompactNameInjective(id, next); }
  }

  /** Finitely many names leave one unused. */
  lemma {:induction false} UnusedName(used: set<string>, id: nat) returns (b: nat)
    ensures b >= id && CompactName(b) !in used
    decreases |used|
  {
    b := id;
    if CompactName(id) in used {
      b := UnusedName(used - {CompactName(id)}, id + 1);
      if CompactName(b) == CompactName(id) { CompactNameInjective(b, id); }
    }
  }

  /** The do-while loop that looks for an unused output name: it ends for every list of paths. */
  method FreshOutput(paths: seq<string>, nextId: nat) returns (output: string, next: nat)
    ensures output !in paths
    ensures next > nextId && output == CompactName(next - 1)
    ensures forall id :: nextId <= id < next - 1 ==> CompactName(id) in paths
  {
    ghost var bound := UnusedName((set p | p in paths), nextId);
    output := CompactName(nextId);
    next := nextId + 1;
    while output in paths
      invariant nextId < next <= bound + 1 && output == CompactName(next - 1)
      invariant forall id :: nextId <= id < next - 1 ==> CompactName(id) in paths
      decreases bound - next
    {
      output := CompactName(next);
      next := next + 1;
    }
  }
}
