/** The memtable (src/memtable.cpp) and the layered read of the store (src/kv_store.cpp). */
module MemTables {
  import opened Options
  import opened Mvcc
  import opened Compactor
  import opened TableOrder
  import opened SSTableFiles
  import opened LsmStore

  /** Backward scan for the first version that is not too new. */
  method LookupEntries(entries: Entries, key: string, t: nat) returns (r: LookupResult)
    ensures r == Newest(VersionsOf(entries, key), t)
  {
    if key !in entries {
      return NotFound;
    }
    var vs := entries[key];
    var i := |vs|;
    assert vs[..i] == vs;
    while i > 0
      invariant 0 <= i <= |vs| && Newest(vs[..i], t) == Newest(vs, t)
    {
      i := i - 1;
      assert vs[..i + 1][..i] == vs[..i];
      if vs[i].timestamp <= t {
        return if vs[i].value == None then Tombstone else Value(vs[i].value.value);
      }
    }
    return NotFound;
  }

  class MemTable {
    var entries: Entries
    var bytes: nat
    const versionBytes: nat   // sizeof(Version)

    constructor (versionBytes: nat)
      ensures entries == map[] && bytes == 0 && this.versionBytes == versionBytes
    {
      entries, bytes := map[], 0;
      this.versionBytes := versionBytes;
    }

    method Put(key: string, timestamp: nat, value: string)
      modifies this
      ensures entries == Push(old(entries), key, Version(timestamp, Some(value)))
      ensures bytes == old(bytes) + |key| + |value| + TIMESTAMP_BYTES + versionBytes
    {
      bytes := bytes + |key| + |value| + TIMESTAMP_BYTES + versionBytes;
      entries := entries[key := VersionsOf(entries, key) + [Version(timestamp, Some(value))]];
    }

    method Del(key: string, timestamp: nat)
      modifies this
      ensures entries == Push(old(entries), key, Version(timestamp, None))
      ensures bytes == old(bytes) + |key| + TIMESTAMP_BYTES + versionBytes
    {
      bytes := bytes + |key| + TIMESTAMP_BYTES + versionBytes;
      entries := entries[key := VersionsOf(entries, key) + [Version(timestamp, None)]];
    }

    method GetAt(key: string, t: nat) returns (r: LookupResult)
      ensures r == Newest(VersionsOf(entries, key), t)
    {
      r := LookupEntries(entries, key, t);
    }

    method TakeEntries() returns (taken: Entries)
      modifies this
      ensures taken == old(entries) && entries == map[] && bytes == 0
    {
      taken := entries;
      entries, bytes := map[], 0;
    }
  }

  // ---- table files ----

  /** A table file of these entries. */
  ghost predicate TextOf(text: string, e: Entries) {
    exists keys :: Written(text, keys, e)
  }

  /** The text files of a path list hold the tables of the model; other files may hold anything. */
  ghost predicate Represents(texts: map<string, string>, files: map<string, Entries>, paths: seq<string>) {
    forall p :: p in paths ==> Backed(texts, files, p)
  }

  ghost predicate Backed(texts: map<string, string>, files: map<string, Entries>, p: string) {
    (p in texts <==> p in files) && (p in files ==> TextOf(texts[p], files[p]))
  }

  function TableAt(files: map<string, Entries>, p: string, key: string, t: nat): LookupResult {
    if p in files then BestResult(VersionsOf(files[p], key), t) else NotFound
  }

  /** Writing a flushed memtable adds its file and leaves the others readable. */
  method WriteFile(texts: map<string, string>, p: string, e: Entries, ghost files: map<string, Entries>, ghost paths: seq<string>)
    returns (texts': map<string, string>)
    requires GoodEntries(e) && Represents(texts, files, paths) && p !in paths
    ensures Represents(texts', files[p := e], paths + [p])
  {
    var text;
    ghost var keys;
    text, keys := WriteTable(e);
    texts' := texts[p := text];
    assert Written(text, keys, e);
    forall q | q in paths + [p] ensures Backed(texts', files[p := e], q) {
      if q != p { assert Backed(texts, files, q); }
    }
  }

  method CompactTexts(older: string, newer: string, ghost e1: Entries, ghost e2: Entries) returns (text: string, ghost out: Entries)
    requires TextOf(older, e1) && TextOf(newer, e2)
    ensures TextOf(text, out) && IsCompaction(e1, e2, out)
  {
    ghost var k1 :| Written(older, k1, e1);
    ghost var k2 :| Written(newer, k2, e2);
    var made;
    ghost var keys;
    made, out, keys := CompactFiles(older, newer);
    assert made.Some? && Written(made.value, keys, out);
    text := made.value;
  }

  lemma ReplacedRepresents(texts: map<string, string>, files: map<string, Entries>, paths: seq<string>, output: string, text: string, out: Entries)
    requires |paths| >= 2 && output !in paths && Represents(texts, files, paths) && TextOf(text, out)
    ensures Represents(texts[output := text], files[output := out], [output] + paths[2..])
  {
    forall q | q in [output] + paths[2..] ensures Backed(texts[output := text], files[output := out], q) {
      if q != output {
        assert q in paths;
        assert Backed(texts, files, q);
      }
    }
  }

  /** Merging the two oldest files writes a readable file of a compaction of their tables. */
  method CompactOldest(texts: map<string, string>, paths: seq<string>, output: string, ghost files: map<string, Entries>)
    returns (texts': map<string, string>, ghost out: Entries)
    requires |paths| >= 2 && paths[0] in files && paths[1] in files && output !in paths && Represents(texts, files, paths)
    ensures IsCompaction(files[paths[0]], files[paths[1]], out)
    ensures Represents(texts', files[output := out], [output] + paths[2..])
  {
    assert Backed(texts, files, paths[0]) && Backed(texts, files, paths[1]);
    var text;
    text, out := CompactTexts(texts[paths[0]], texts[paths[1]], files[paths[0]], files[paths[1]]);
    ReplacedRepresents(texts, files, paths, output, text, out);
    texts' := texts[output := text];
  }

  // ---- the read ----

  method ReadTable(text: Option<string>, key: string, t: nat, ghost e: Entries) returns (r: LookupResult)
    requires text.Some? ==> TextOf(text.value, e)
    ensures r == if text.Some? then BestResult(VersionsOf(e, key), t) else NotFound
  {
    var reader := new SSTableReader(text, 4, 8192, 4);
    r := reader.GetAt(key, t);
    if text.Some? {
      ghost var keys :| Written(text.value, keys, e);
    }
  }

  lemma TablesLast(files: map<string, Entries>, paths: seq<string>, i: nat, key: string, t: nat)
    requires i < |paths|
    ensures var r := TableAt(files, paths[i], key, t);
      TablesAt(files, paths[..i + 1], key, t) == if r != NotFound then r else TablesAt(files, paths[..i], key, t)
  {
    assert paths[..i + 1][..i] == paths[..i];
  }

  method ReadFile(texts: map<string, string>, p: string, key: string, t: nat, ghost files: map<string, Entries>) returns (r: LookupResult)
    requires Backed(texts, files, p)
    ensures r == TableAt(files, p, key, t)
  {
    r := ReadTable(if p in texts then Some(texts[p]) else None, key, t, if p in files then files[p] else map[]);
  }

  /** The tables of a path list, newest first. */
  method ReadTables(texts: map<string, string>, paths: seq<string>, key: string, t: nat, ghost files: map<string, Entries>) returns (r: LookupResult)
    requires Represents(texts, files, paths)
    ensures r == TablesAt(files, paths, key, t)
  {
    var i := |paths|;
    ghost var all := TablesAt(files, paths, key, t);
    assert paths[..i] == paths;
    r := NotFound;
    while i > 0 && r == NotFound
      invariant 0 <= i <= |paths|
      invariant all == if r != NotFound then r else TablesAt(files, paths[..i], key, t)
      decreases i
    {
      i := i - 1;
      TablesLast(files, paths, i, key, t);
      assert Backed(texts, files, paths[i]);
      r := ReadFile(texts, paths[i], key, t, files);
    }
  }

  /** The whole read over memtable, slot and table files is the read of the model. */
  method GetAt(mem: MemTable, slot: Option<Entries>, texts: map<string, string>, paths: seq<string>, key: string, t: nat, ghost s: Store)
    returns (r: Option<string>)
    requires mem.entries == s.mem && slot == s.slot && paths == s.paths && Represents(texts, s.files, paths)
    ensures r == Get(s, key, t)
  {
    var m := mem.GetAt(key, t);
    if m != NotFound {
      return Answer(m);
    }
    if slot.Some? {
      var i := LookupEntries(slot.value, key, t);
      if i != NotFound {
        return Answer(i);
      }
    }
    var d := ReadTables(texts, paths, key, t, s.files);
    r := Answer(d);
  }
}
