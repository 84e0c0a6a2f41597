/** The writer, the reader and the compactor's file handling, loop by loop. */
module SSTableFiles {
  import opened Options
  import opened Mvcc
  import opened TableText
  import opened TableOrder
  import opened BloomFilters
  import opened SSTable
  import opened Compactor

  // ---- writing ----

  method MinKey(s: set<string>) returns (k: string)
    requires s != {}
    ensures k in s && forall m :: m in s ==> AtMost(k, m)
  {
    if forall q :: q !in s { assert false; }
    k :| k in s;
    var rest := s - {k};
    while rest != {}
      invariant k in s && rest <= s
      invariant forall m :: m in s && m !in rest ==> AtMost(k, m)
      decreases |rest|
    {
      if forall q :: q !in rest { assert false; }
      var m :| m in rest;
      LessTotal(m, k);
      if Less(m, k) {
        forall x | x in s && x !in rest ensures AtMost(m, x) {
          AtMostTransitive(m, k, x);
        }
        k := m;
      }
      rest := rest - {m};
    }
  }

  /** A table file holding these entries, which the format can carry. */
  ghost predicate Written(text: string, keys: seq<string>, e: Entries) {
    text == Render(RecordsOf(keys, e)) && Enumerates(keys, e.Keys) && GoodEntries(e)
  }

  /** Every key of the first part comes before every key of the rest. */
  ghost predicate Before(keys: seq<string>, rest: set<string>) {
    forall i, m :: 0 <= i < |keys| && m in rest ==> Less(keys[i], m)
  }

  lemma AppendKey(keys: seq<string>, done: set<string>, rest: set<string>, k: string)
    requires Enumerates(keys, done) && Before(keys, rest)
    requires k in rest && forall m :: m in rest ==> AtMost(k, m)
    ensures Enumerates(keys + [k], done + {k}) && Before(keys + [k], rest - {k})
  {
    var more := keys + [k];
    forall i, j | 0 <= i < j < |more| ensures Less(more[i], more[j]) {
    }
  }

  /** The table of some entries: keys in order, versions in the order they were pushed. */
  method WriteTable(e: Entries) returns (text: string, ghost keys: seq<string>)
    ensures Enumerates(keys, e.Keys) && text == Render(RecordsOf(keys, e))
  {
    text, keys := "", [];
    var rest := e.Keys;
    while rest != {}
      invariant rest <= e.Keys && Enumerates(keys, e.Keys - rest) && Before(keys, rest)
      invariant text == Render(RecordsOf(keys, e))
      decreases |rest|
    {
      var key := MinKey(rest);
      text := WriteVersions(text, RecordsOf(keys, e), key, e[key]);
      assert RecordsOf(keys + [key], e) == RecordsOf(keys, e) + VersionRecords(key, e[key]) by {
        assert (keys + [key])[..|keys|] == keys;
      }
      assert Enumerates(keys + [key], e.Keys - (rest - {key})) && Before(keys + [key], rest - {key}) by {
        AppendKey(keys, e.Keys - rest, rest, key);
        assert e.Keys - rest + {key} == e.Keys - (rest - {key});
      }
      keys := keys + [key];
      rest := rest - {key};
    }
    assert e.Keys - rest == e.Keys;
  }

  method WriteVersions(sofar: string, ghost before: seq<Record>, key: string, vs: seq<Version>) returns (text: string)
    requires sofar == Render(before)
    ensures text == Render(before + VersionRecords(key, vs))
  {
    text := sofar;
    assert before + VersionRecords(key, vs[..0]) == before;
    for i := 0 to |vs|
      invariant text == Render(before + VersionRecords(key, vs[..i]))
    {
      text := text + LineOf(Record(key, vs[i])) + "\n";
      OneMoreRecord(before, key, vs, i);
    }
    assert vs[..|vs|] == vs;
  }

  lemma OneMoreRecord(before: seq<Record>, key: string, vs: seq<Version>, i: nat)
    requires i < |vs|
    ensures Render(before + VersionRecords(key, vs[..i])) + LineOf(Record(key, vs[i])) + "\n"
         == Render(before + VersionRecords(key, vs[..i + 1]))
  {
    var a, b := before + VersionRecords(key, vs[..i]), before + VersionRecords(key, vs[..i + 1]);
    assert b == a + [Record(key, vs[i])];
    assert b[..|b| - 1] == a;
  }

  // ---- reading ----

  method BuildIndex(text: string, stride: nat) returns (index: map<string, nat>)
    requires stride > 0
    ensures index == IndexOf(text, stride)
  {
    var pos := 0;
    var b := START;
    while pos < |text|
      invariant pos <= |text| && BuildFrom(text, pos, b, stride) == IndexOf(text, stride)
      decreases |text| - pos
    {
      var key := ParseKey(text[pos..LineEnd(text, pos)]);
      if key.Some? {
        b := Indexed(b, key.value, pos, stride);
      }
      pos := NextLine(text, pos);
    }
    index := b.index;
  }

  method FindStartOffset(index: map<string, nat>, key: string) returns (r: Option<nat>)
    ensures IsStart(index, key, r)
  {
    if index.Keys == {} {
      assert index == map[];
      return None;
    }
    if forall q :: q !in index.Keys { assert false; }
    var k :| k in index.Keys;
    var rest := index.Keys - {k};
    while rest != {}
      invariant k in index && rest <= index.Keys
      invariant AtMost(k, key) ==> forall m :: m in index && m !in rest && AtMost(m, key) ==> AtMost(m, k)
      invariant !AtMost(k, key) ==> forall m :: m in index && m !in rest ==> AtMost(k, m)
      decreases |rest|
    {
      if forall q :: q !in rest { assert false; }
      var m :| m in rest;
      k := Better(index, rest, key, k, m);
      rest := rest - {m};
    }
    assert FloorKey(index, key, k);
    r := Some(index[k]);
  }

  /** The better of two indexed keys as the start of a lookup. */
  method Better(index: map<string, nat>, ghost rest: set<string>, key: string, k: string, m: string) returns (b: string)
    requires k in index && m in index && m in rest
    requires AtMost(k, key) ==> forall x :: x in index && x !in rest && AtMost(x, key) ==> AtMost(x, k)
    requires !AtMost(k, key) ==> forall x :: x in index && x !in rest ==> AtMost(k, x)
    ensures b in index
    ensures AtMost(b, key) ==> forall x :: x in index && x !in rest - {m} && AtMost(x, key) ==> AtMost(x, b)
    ensures !AtMost(b, key) ==> forall x :: x in index && x !in rest - {m} ==> AtMost(b, x)
  {
    LessTotal(m, k);
    if AtMost(m, key) {
      if AtMost(k, key) {
        b := if Less(k, m) then m else k;
        forall x | x in index && x !in rest - {m} && AtMost(x, key) ensures AtMost(x, b) {
          if x != m { AtMostTransitive(x, k, b); }
        }
      } else {
        b := m;
        forall x | x in index && x !in rest - {m} && AtMost(x, key) ensures AtMost(x, b) {
          if x != m { AtMostTransitive(k, x, key); }
        }
      }
    } else if AtMost(k, key) {
      b := k;
    } else {
      b := if Less(m, k) then m else k;
      forall x | x in index && x !in rest - {m} ensures AtMost(b, x) {
        if x != m { AtMostTransitive(b, k, x); }
      }
    }
  }

  class SSTableReader {
    const file: Option<string>
    const stride: nat
    const index: map<string, nat>
    const bloom: BloomFilter

    ghost predicate Valid()
      reads this, bloom, bloom.bits
    {
      && stride > 0
      && bloom.Valid()
      && (file.Some? ==>
            && index == IndexOf(file.value, stride)
            && forall k :: k in LineKeys(file.value, 0) ==> bloom.Has(k))
    }

    /** A missing file is `None`. */
    constructor (file: Option<string>, indexStride: nat, bloomBits: nat, bloomHashes: nat)
      ensures Valid() && this.file == file
      ensures stride == (if indexStride == 0 then 1 else indexStride)
    {
      this.file := file;
      var stride := if indexStride == 0 then 1 else indexStride;
      this.stride := stride;
      var index: map<string, nat> := map[];
      var bloom := new BloomFilter(bloomBits, bloomHashes);
      if file.Some? {
        index := BuildIndex(file.value, stride);
        BuildBloomFilter(file.value, bloom);
      }
      this.index := index;
      this.bloom := bloom;
    }

    static method BuildBloomFilter(text: string, bloom: BloomFilter)
      requires bloom.Valid()
      modifies bloom.bits
      ensures forall k :: k in LineKeys(text, 0) ==> bloom.Has(k)
    {
      var pos := 0;
      while pos < |text|
        invariant pos <= |text|
        invariant forall k :: k in LineKeys(text, 0) ==> k in LineKeys(text, pos) || bloom.Has(k)
        decreases |text| - pos
      {
        var key := ParseKey(text[pos..LineEnd(text, pos)]);
        if key.Some? {
          bloom.Add(key.value);
        }
        pos := NextLine(text, pos);
      }
    }

    /** A written table answers every key and time as its entries do, whatever the stride and the filter size. */
    method GetAt(key: string, t: nat) returns (r: LookupResult)
      requires Valid()
      ensures file == None ==> r == NotFound
      ensures forall keys, e :: file.Some? && Written(file.value, keys, e) ==> r == BestResult(VersionsOf(e, key), t)
    {
      if file == None {
        return NotFound;
      }
      var text := file.value;
      var maybe := bloom.PossiblyContains(key);
      if !maybe {
        r := NotFound;
        forall keys, e | Written(text, keys, e)
          ensures r == BestResult(VersionsOf(e, key), t)
        {
          AbsentAnswers(keys, e, key, t);
        }
        return;
      }
      var found := FindStartOffset(index, key);
      var start := if found == None then 0 else found.value;
      r := ScanFrom(text, start, key, t);
      forall keys, e | Written(text, keys, e)
        ensures r == BestResult(VersionsOf(e, key), t)
      {
        IndexedAnswers(keys, e, stride, key, t, found);
      }
    }
  }

  /** The scan loop; seeking past the end reads nothing. */
  method ScanFrom(text: string, start: nat, key: string, t: nat) returns (r: LookupResult)
    ensures start <= |text| ==> r == Scan(text, start, key, t, NOTHING)
    ensures start > |text| ==> r == NotFound
  {
    if start > |text| {
      return NotFound;
    }
    var pos, st := start, NOTHING;
    while pos < |text|
      invariant start <= pos <= |text|
      invariant Scan(text, pos, key, t, st) == Scan(text, start, key, t, NOTHING)
      decreases |text| - pos
    {
      var row := ParseRow(text[pos..LineEnd(text, pos)]);
      if row.Some? {
        if Less(key, row.value.key) {
          return st.best;
        }
        if !Less(row.value.key, key) {
          st := Consider(st, row.value, t);
        }
      }
      pos := NextLine(text, pos);
    }
    r := st.best;
  }

  /** What is known of the records of a written table. */
  lemma WrittenRecords(keys: seq<string>, e: Entries, key: string)
    requires Enumerates(keys, e.Keys) && GoodEntries(e)
    ensures GoodRecords(RecordsOf(keys, e)) && Grouped(RecordsOf(keys, e))
    ensures Of(RecordsOf(keys, e), key) == VersionsOf(e, key)
  {
    RecordsGood(keys, e);
    RecordsGrouped(keys, e);
    OfRecords(keys, e, key);
  }

  lemma AbsentAnswers(keys: seq<string>, e: Entries, key: string, t: nat)
    requires Enumerates(keys, e.Keys) && GoodEntries(e)
    requires key !in LineKeys(Render(RecordsOf(keys, e)), 0)
    ensures BestResult(VersionsOf(e, key), t) == NotFound
  {
    WrittenRecords(keys, e, key);
    UnreadKey(RecordsOf(keys, e), key);
  }

  lemma IndexedAnswers(keys: seq<string>, e: Entries, stride: nat, key: string, t: nat, found: Option<nat>)
    requires Enumerates(keys, e.Keys) && GoodEntries(e) && stride > 0
    requires IsStart(IndexOf(Render(RecordsOf(keys, e)), stride), key, found)
    ensures var text := Render(RecordsOf(keys, e)); var start := if found == None then 0 else found.value;
      start <= |text| && Scan(text, start, key, t, NOTHING) == BestResult(VersionsOf(e, key), t)
  {
    var rs := RecordsOf(keys, e);
    WrittenRecords(keys, e, key);
    OffsetEnds(rs);
    BuildRecords(rs, 0, START, stride);
    var i := StartSkipsNothing(rs, IndexOf(Render(rs), stride), key, found);
    ScanRecords(rs, i, key, t, NOTHING);
  }

  // ---- loading for compaction (src/compactor.cpp) ----

  /** Every line pushed onto what was loaded before; a line that is no record fails the load. */
  function LoadFrom(text: string, pos: nat, merged: Entries): Option<Entries>
    requires pos <= |text|
    decreases |text| - pos
  {
    if pos == |text| then Some(merged)
    else
      var line := text[pos..LineEnd(text, pos)];
      var next := NextLine(text, pos);
      if line == "" then LoadFrom(text, next, merged) else
      match ParseRow(line)
      case None => None
      case Some(row) =>
        match RowVersion(row)
        case None => None
        case Some(v) => LoadFrom(text, next, Push(merged, row.key, v))
  }

  method LoadTable(text: string, merged: Entries) returns (r: Option<Entries>)
    ensures r == LoadFrom(text, 0, merged)
  {
    var pos, out := 0, merged;
    while pos < |text|
      invariant pos <= |text| && LoadFrom(text, pos, out) == LoadFrom(text, 0, merged)
      decreases |text| - pos
    {
      var line := text[pos..LineEnd(text, pos)];
      if line != "" {
        var row := ParseRow(line);
        if row == None { return None; }
        var v := RowVersion(row.value);
        if v == None { return None; }
        out := Push(out, row.value.key, v.value);
      }
      pos := NextLine(text, pos);
    }
    r := Some(out);
  }

  function PushAll(merged: Entries, rs: seq<Record>): Entries
    decreases |rs|
  {
    if rs == [] then merged else PushAll(Push(merged, rs[0].key, rs[0].version), rs[1..])
  }

  lemma OfOne(r: Record, key: string)
    ensures Of([r], key) == if r.key == key then [r.version] else []
  {
    assert [r][..0] == [];
  }

  lemma {:induction false} PushAllVersions(merged: Entries, rs: seq<Record>, key: string)
    ensures VersionsOf(PushAll(merged, rs), key) == VersionsOf(merged, key) + Of(rs, key)
    decreases |rs|
  {
    if rs != [] {
      var r, rest := rs[0], rs[1..];
      PushAllVersions(Push(merged, r.key, r.version), rest, key);
      assert Of(rs, key) == Of([r], key) + Of(rest, key) by {
        assert rs == [r] + rest;
        OfConcat([r], rest, key);
      }
      OfOne(r, key);
    }
  }

  lemma {:induction false} PushAllGood(merged: Entries, rs: seq<Record>)
    requires GoodEntries(merged) && GoodRecords(rs)
    ensures GoodEntries(PushAll(merged, rs))
    decreases |rs|
  {
    if rs != [] {
      PushAllGood(Push(merged, rs[0].key, rs[0].version), rs[1..]);
    }
  }

  lemma LoadOne(rs: seq<Record>, i: nat, merged: Entries)
    requires GoodRecords(rs) && i < |rs|
    ensures Offset(rs, i) <= |Render(rs)| && Offset(rs, i + 1) <= |Render(rs)|
    ensures LoadFrom(Render(rs), Offset(rs, i), merged)
         == LoadFrom(Render(rs), Offset(rs, i + 1), Push(merged, rs[i].key, rs[i].version))
  {
    LineAt(rs, i);
    LineRoundTrip(rs[i]);
    var text, pos := Render(rs), Offset(rs, i);
    assert text[pos..LineEnd(text, pos)] == LineOf(rs[i]) != "";
  }

  lemma {:induction false} LoadRecords(rs: seq<Record>, i: nat, merged: Entries)
    requires GoodRecords(rs) && i <= |rs|
    ensures Offset(rs, i) <= |Render(rs)|
    ensures LoadFrom(Render(rs), Offset(rs, i), merged) == Some(PushAll(merged, rs[i..]))
    decreases |rs| - i
  {
    if i == |rs| {
      OffsetEnds(rs);
    } else {
      var next := Push(merged, rs[i].key, rs[i].version);
      LoadOne(rs, i, merged);
      LoadRecords(rs, i + 1, next);
      assert PushAll(merged, rs[i..]) == PushAll(next, rs[i + 1..]) by {
        assert rs[i..][1..] == rs[i + 1..] && rs[i..][0] == rs[i];
      }
    }
  }

  /** Every version of `e` comes after those of `a`. */
  ghost predicate Appended(a: Entries, e: Entries, b: Entries) {
    forall key :: VersionsOf(b, key) == VersionsOf(a, key) + VersionsOf(e, key)
  }

  /** Loading a written table appends its versions, key by key. */
  lemma LoadWritten(text: string, keys: seq<string>, e: Entries, merged: Entries)
    requires Written(text, keys, e)
    ensures LoadFrom(text, 0, merged).Some? && Appended(merged, e, LoadFrom(text, 0, merged).value)
    ensures GoodEntries(merged) ==> GoodEntries(LoadFrom(text, 0, merged).value)
  {
    var rs := RecordsOf(keys, e);
    OffsetEnds(rs);
    WrittenRecords(keys, e, "");
    LoadRecords(rs, 0, merged);
    assert rs[0..] == rs;
    if GoodEntries(merged) { PushAllGood(merged, rs); }
    forall key ensures VersionsOf(PushAll(merged, rs), key) == VersionsOf(merged, key) + VersionsOf(e, key) {
      WrittenRecords(keys, e, key);
      PushAllVersions(merged, rs, key);
    }
  }

  lemma LoadedCompaction(e1: Entries, e2: Entries, a: Entries, b: Entries, merged: Entries)
    requires Appended(map[], e1, a) && Appended(a, e2, b)
    requires forall key :: IsMerge(VersionsOf(b, key), VersionsOf(merged, key))
    ensures IsCompaction(e1, e2, merged)
  {
    forall key ensures IsMerge(VersionsOf(e1, key) + VersionsOf(e2, key), VersionsOf(merged, key)) {
      assert VersionsOf(a, key) == VersionsOf(e1, key);
      assert IsMerge(VersionsOf(b, key), VersionsOf(merged, key));
    }
  }

  lemma MergedGood(b: Entries, merged: Entries)
    requires GoodEntries(b) && merged.Keys == b.Keys
    requires forall key :: IsMerge(VersionsOf(b, key), VersionsOf(merged, key))
    ensures GoodEntries(merged)
  {
    forall k | k in merged
      ensures GoodKey(k) && forall i :: 0 <= i < |merged[k]| && merged[k][i].value.Some? ==> GoodValue(merged[k][i].value.value)
    {
      assert IsMerge(VersionsOf(b, k), VersionsOf(merged, k));
      MergeAddsNothing(b[k], merged[k]);
      forall i | 0 <= i < |merged[k]| ensures merged[k][i] in b[k] {
      }
    }
  }

  /** Reading the compacted file gives what reading all versions of both files together would. */
  lemma CompactedReads(e1: Entries, e2: Entries, out: Entries, key: string, t: nat)
    requires IsCompaction(e1, e2, out) && Agree(VersionsOf(e1, key) + VersionsOf(e2, key))
    ensures BestResult(VersionsOf(out, key), t) == BestResult(VersionsOf(e1, key) + VersionsOf(e2, key), t)
  {
    MergeKeepsReads(VersionsOf(e1, key) + VersionsOf(e2, key), VersionsOf(out, key), t);
    BestIsNewest(VersionsOf(out, key), t);
  }

  /** Compacting two written tables writes a readable table of one of their compactions. */
  method CompactFiles(older: string, newer: string) returns (out: Option<string>, ghost entries: Entries, ghost keys: seq<string>)
    ensures out.Some? ==> Enumerates(keys, entries.Keys) && out.value == Render(RecordsOf(keys, entries))
    ensures forall k1, e1, k2, e2 :: Written(older, k1, e1) && Written(newer, k2, e2) ==>
        out.Some? && IsCompaction(e1, e2, entries) && Written(out.value, keys, entries)
  {
    entries, keys := map[], [];
    ghost var loads := LoadFrom(older, 0, map[]);
    forall k1, e1 | Written(older, k1, e1)
      ensures loads.Some? && Appended(map[], e1, loads.value) && GoodEntries(loads.value)
    {
      LoadWritten(older, k1, e1, map[]);
    }
    var a := LoadTable(older, map[]);
    if a == None {
      return None, entries, keys;
    }
    ghost var both := LoadFrom(newer, 0, a.value);
    forall k2, e2 | Written(newer, k2, e2)
      ensures both.Some? && Appended(a.value, e2, both.value) && (GoodEntries(a.value) ==> GoodEntries(both.value))
    {
      LoadWritten(newer, k2, e2, a.value);
    }
    var b := LoadTable(newer, a.value);
    if b == None {
      return None, entries, keys;
    }
    var merged := MergeAll(b.value);
    entries := merged;
    var text;
    text, keys := WriteTable(merged);
    out := Some(text);
    forall k1, e1, k2, e2 | Written(older, k1, e1) && Written(newer, k2, e2)
      ensures IsCompaction(e1, e2, merged) && GoodEntries(merged)
    {
      MergedGood(b.value, merged);
      LoadedCompaction(e1, e2, a.value, b.value, merged);
    }
  }
}
