/** Key order and the records of a table in that order. */
module TableOrder {
  import opened Mvcc
  import opened TableText

  /** std::string's order: compare character by character, a prefix comes first. */
  predicate Less(a: string, b: string) {
    if b == "" then false
    else if a == "" then true
    else if a[0] != b[0] then a[0] < b[0]
    else Less(a[1..], b[1..])
  }

  lemma {:induction false} LessIrreflexive(a: string)
    ensures !Less(a, a)
  {
    if a != "" { LessIrreflexive(a[1..]); }
  }

  lemma {:induction false} LessTransitive(a: string, b: string, c: string)
    requires Less(a, b) && Less(b, c)
    ensures Less(a, c)
  {
    if a != "" && a[0] == b[0] == c[0] { LessTransitive(a[1..], b[1..], c[1..]); }
  }

  lemma {:induction false} LessTotal(a: string, b: string)
    ensures Less(a, b) || a == b || Less(b, a)
  {
    if a != "" && b != "" && a[0] == b[0] {
      LessTotal(a[1..], b[1..]);
      assert a == [a[0]] + a[1..] && b == [b[0]] + b[1..];
    }
  }

  /** The keys of a std::map, in iteration order. */
  ghost predicate Ascending(keys: seq<string>) {
    forall i, j :: 0 <= i < j < |keys| ==> Less(keys[i], keys[j])
  }

  ghost predicate Enumerates(keys: seq<string>, s: set<string>) {
    Ascending(keys) && forall k :: k in keys <==> k in s
  }

  function VersionRecords(key: string, vs: seq<Version>): (rs: seq<Record>)
    ensures |rs| == |vs|
  {
    seq(|vs|, i requires 0 <= i < |vs| => Record(key, vs[i]))
  }

  /** All versions, key by key. */
  function RecordsOf(keys: seq<string>, e: Entries): seq<Record> {
    if keys == [] then []
    else RecordsOf(keys[..|keys| - 1], e) + VersionRecords(keys[|keys| - 1], VersionsOf(e, keys[|keys| - 1]))
  }

  /** The versions of one key among the records. */
  function Of(rs: seq<Record>, key: string): seq<Version> {
    if rs == [] then []
    else Of(rs[..|rs| - 1], key) + if rs[|rs| - 1].key == key then [rs[|rs| - 1].version] else []
  }

  predicate AtMost(a: string, b: string) {
    a == b || Less(a, b)
  }

  /** Keys never fall along the records. */
  ghost predicate Grouped(rs: seq<Record>) {
    forall i, j :: 0 <= i < j < |rs| ==> AtMost(rs[i].key, rs[j].key)
  }

  /** Entries that the text format can carry. */
  ghost predicate GoodEntries(e: Entries) {
    forall k :: k in e ==> GoodKey(k) && forall i :: 0 <= i < |e[k]| && e[k][i].value.Some? ==> GoodValue(e[k][i].value.value)
  }

  lemma {:induction false} OfConcat(a: seq<Record>, b: seq<Record>, key: string)
    ensures Of(a + b, key) == Of(a, key) + Of(b, key)
  {
    if b == [] {
      assert a + b == a;
    } else {
      assert (a + b)[..|a + b| - 1] == a + b[..|b| - 1];
      OfConcat(a, b[..|b| - 1], key);
    }
  }

  lemma {:induction false} OfVersionRecords(key: string, vs: seq<Version>, other: string)
    ensures Of(VersionRecords(key, vs), other) == if key == other then vs else []
  {
    if vs != [] {
      var rs := VersionRecords(key, vs);
      assert rs[..|rs| - 1] == VersionRecords(key, vs[..|vs| - 1]);
      OfVersionRecords(key, vs[..|vs| - 1], other);
    }
  }

  lemma {:induction false} OfNone(rs: seq<Record>, key: string)
    requires forall i :: 0 <= i < |rs| ==> rs[i].key != key
    ensures Of(rs, key) == []
  {
    if rs != [] { OfNone(rs[..|rs| - 1], key); }
  }

  lemma LastIsNew(front: seq<string>, last: string)
    requires Ascending(front + [last])
    ensures last !in front
  {
    forall i | 0 <= i < |front| ensures front[i] != last {
      assert Less((front + [last])[i], (front + [last])[|front|]);
      LessIrreflexive(last);
    }
  }

  lemma OfRecordsLast(keys: seq<string>, e: Entries, key: string)
    requires keys != []
    ensures var front, last := keys[..|keys| - 1], keys[|keys| - 1];
      Of(RecordsOf(keys, e), key) == Of(RecordsOf(front, e), key) + if key == last then VersionsOf(e, last) else []
  {
    var front, last := keys[..|keys| - 1], keys[|keys| - 1];
    OfVersionRecords(last, VersionsOf(e, last), key);
    OfConcat(RecordsOf(front, e), VersionRecords(last, VersionsOf(e, last)), key);
  }

  /** The records of a key are its versions. */
  lemma {:induction false} OfRecords(keys: seq<string>, e: Entries, key: string)
    requires Ascending(keys)
    ensures Of(RecordsOf(keys, e), key) == if key in keys then VersionsOf(e, key) else []
  {
    if keys != [] {
      var front, last := keys[..|keys| - 1], keys[|keys| - 1];
      OfRecords(front, e, key);
      OfRecordsLast(keys, e, key);
      assert keys == front + [last];
      LastIsNew(front, last);
    }
  }

  lemma {:induction false} RecordKeys(keys: seq<string>, e: Entries)
    ensures forall i :: 0 <= i < |RecordsOf(keys, e)| ==> RecordsOf(keys, e)[i].key in keys
  {
    if keys != [] {
      var front, last := keys[..|keys| - 1], keys[|keys| - 1];
      assert keys == front + [last];
      RecordKeys(front, e);
    }
  }

  lemma {:induction false} RecordsGrouped(keys: seq<string>, e: Entries)
    requires Ascending(keys)
    ensures Grouped(RecordsOf(keys, e))
  {
    if keys != [] {
      var front, last := keys[..|keys| - 1], keys[|keys| - 1];
      var a, b := RecordsOf(front, e), VersionRecords(last, VersionsOf(e, last));
      RecordsGrouped(front, e);
      RecordKeys(front, e);
      var all: seq<Record> := a + b;
      forall i, j | 0 <= i < j < |all| ensures AtMost(all[i].key, all[j].key) {
        if i < |a| <= j {
          assert a[i].key in front;
          var x :| 0 <= x < |front| && front[x] == a[i].key;
          assert Less(keys[x], keys[|keys| - 1]);
        }
      }
    }
  }

  lemma {:induction false} RecordsGood(keys: seq<string>, e: Entries)
    requires GoodEntries(e) && forall k :: k in keys ==> k in e
    ensures GoodRecords(RecordsOf(keys, e))
  {
    if keys != [] {
      var front, last := keys[..|keys| - 1], keys[|keys| - 1];
      assert keys == front + [last];
      RecordsGood(front, e);
    }
  }
}
