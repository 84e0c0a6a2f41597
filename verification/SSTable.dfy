/** Writing a table and reading it back through filter, sparse index, seek and early stop. */
module SSTable {
  import opened Options
  import opened Mvcc
  import opened TableText
  import opened TableOrder

  // ---- the scan (src/sstable_reader.cpp) ----

  /** best, best_timestamp and found_visible_version. */
  datatype Found = Found(best: LookupResult, timestamp: nat, any: bool)

  const NOTHING: Found := Found(NotFound, 0, false)

  /** What a row of the requested key does to the best version so far. */
  function Consider(st: Found, row: Row, t: nat): Found {
    if row.timestamp > t || (st.any && row.timestamp < st.timestamp) then st
    else
      Found(
        if row.kind == 'P' then Value(SkipSpaces(row.rest)) else if row.kind == 'D' then Tombstone else st.best,
        row.timestamp, true)
  }

  function Scan(text: string, pos: nat, key: string, t: nat, st: Found): LookupResult
    requires pos <= |text|
    decreases |text| - pos
  {
    if pos == |text| then st.best
    else
      var line := text[pos..LineEnd(text, pos)];
      var next := NextLine(text, pos);
      match ParseRow(line)
      case None => Scan(text, next, key, t, st)
      case Some(row) =>
        if Less(key, row.key) then st.best
        else if Less(row.key, key) then Scan(text, next, key, t, st)
        else Scan(text, next, key, t, Consider(st, row, t))
  }

  /** The state of a scan after the given versions of the key. */
  function After(vs: seq<Version>, t: nat): Found {
    match Best(vs, t)
    case None => NOTHING
    case Some(v) => Found(AsResult(v), v.timestamp, true)
  }

  lemma ConsiderNext(vs: seq<Version>, row: Row, v: Version, t: nat)
    requires RowVersion(row) == Some(v) && row.timestamp == v.timestamp
    ensures Consider(After(vs, t), row, t) == After(vs + [v], t)
  {
    assert (vs + [v])[..|vs|] == vs;
  }

  lemma SameOrder(a: string, b: string)
    ensures !Less(a, b) && !Less(b, a) <==> a == b
  {
    LessTotal(a, b);
    LessIrreflexive(a);
  }

  /** Past a larger key there is nothing left to find. */
  lemma NoneFrom(rs: seq<Record>, i: nat, key: string)
    requires Grouped(rs) && i < |rs| && Less(key, rs[i].key)
    ensures Of(rs, key) == Of(rs[..i], key)
  {
    forall j | i <= j < |rs| ensures rs[j].key != key {
      LessIrreflexive(key);
      if i < j {
        assert AtMost(rs[i].key, rs[j].key);
        if rs[j].key == key && Less(rs[i].key, key) { LessTransitive(key, rs[i].key, key); }
      }
    }
    OfNone(rs[i..], key);
    assert rs == rs[..i] + rs[i..];
    OfConcat(rs[..i], rs[i..], key);
  }

  lemma OfNext(rs: seq<Record>, i: nat, key: string)
    requires i < |rs|
    ensures Of(rs[..i + 1], key) == Of(rs[..i], key) + if rs[i].key == key then [rs[i].version] else []
  {
    assert rs[..i + 1][..i] == rs[..i];
  }

  lemma OffsetInside(rs: seq<Record>, i: nat)
    requires i <= |rs|
    ensures Offset(rs, i) <= |Render(rs)|
  {
    RenderPrefix(rs, i);
  }

  /** One round of the scan loop on a written table. */
  lemma ScanOne(rs: seq<Record>, i: nat, key: string, t: nat, st: Found)
    requires GoodRecords(rs) && i < |rs|
    ensures Offset(rs, i) <= |Render(rs)| && Offset(rs, i + 1) <= |Render(rs)|
    ensures ParseRow(LineOf(rs[i])).Some?
    ensures Scan(Render(rs), Offset(rs, i), key, t, st) ==
      if Less(key, rs[i].key) then st.best
      else Scan(Render(rs), Offset(rs, i + 1), key, t,
                if rs[i].key == key then Consider(st, ParseRow(LineOf(rs[i])).value, t) else st)
  {
    LineAt(rs, i);
    LineRoundTrip(rs[i]);
    SameOrder(rs[i].key, key);
  }

  lemma ResultAfter(vs: seq<Version>, t: nat)
    ensures After(vs, t).best == BestResult(vs, t)
  {
  }

  /** Scanning a written table from any record on, with the state that fits what lies before it. */
  lemma {:induction false} ScanRecords(rs: seq<Record>, i: nat, key: string, t: nat, st: Found)
    requires GoodRecords(rs) && Grouped(rs) && i <= |rs| && st == After(Of(rs[..i], key), t)
    ensures Offset(rs, i) <= |Render(rs)|
    ensures Scan(Render(rs), Offset(rs, i), key, t, st) == BestResult(Of(rs, key), t)
    decreases |rs| - i
  {
    OffsetInside(rs, i);
    ResultAfter(Of(rs[..i], key), t);
    if i == |rs| {
      OffsetEnds(rs);
      assert rs[..i] == rs;
    } else {
      ScanOne(rs, i, key, t, st);
      if Less(key, rs[i].key) {
        NoneFrom(rs, i, key);
      } else {
        OfNext(rs, i, key);
        LineRoundTrip(rs[i]);
        ConsiderNext(Of(rs[..i], key), ParseRow(LineOf(rs[i])).value, rs[i].version, t);
        ScanRecords(rs, i + 1, key, t, After(Of(rs[..i + 1], key), t));
        assert Of(rs[..i], key) + [] == Of(rs[..i], key);
      }
    }
  }

  // ---- what the format can carry ----

  /** A value that a scan can answer with. */
  predicate Carried(r: LookupResult) {
    r.Value? ==> GoodValue(r.value)
  }

  /** On any text: a scan answers with values the format carries, and finds nothing under other keys. */
  lemma {:induction false} ScanCarries(text: string, pos: nat, key: string, t: nat, st: Found)
    requires pos <= |text| && Carried(st.best)
    ensures Carried(Scan(text, pos, key, t, st))
    ensures !GoodKey(key) ==> Scan(text, pos, key, t, st) == st.best
    decreases |text| - pos
  {
    if pos < |text| {
      var line := text[pos..LineEnd(text, pos)];
      var next := NextLine(text, pos);
      LineHasNoNewline(text, pos);
      match ParseRow(line)
      case None => ScanCarries(text, next, key, t, st);
      case Some(row) =>
        RowIsGood(line);
        SameOrder(row.key, key);
        if Less(row.key, key) {
          ScanCarries(text, next, key, t, st);
        } else if !Less(key, row.key) {
          ScanCarries(text, next, key, t, Consider(st, row, t));
        }
    }
  }

  /** A table of one record gives its version back exactly when key and value are ones the format carries. */
  lemma OneRecordIff(r: Record, t: nat)
    requires r.version.timestamp <= t
    ensures Scan(Render([r]), 0, r.key, t, NOTHING) == AsResult(r.version) <==> GoodRecord(r)
  {
    if GoodRecord(r) {
      assert [r][..0] == [];
      ScanRecords([r], 0, r.key, t, NOTHING);
      OffsetEnds([r]);
      assert Of([r], r.key) == [r.version] by { OfNext([r], 0, r.key); assert [r][..1] == [r]; }
      assert Best([r.version], t) == Some(r.version) by { assert [r.version][..0] == []; }
    } else {
      ScanCarries(Render([r]), 0, r.key, t, NOTHING);
    }
  }

  // ---- the sparse index (src/sstable_index.cpp) ----

  /** The loop variables of the index builder. */
  datatype Building = Building(index: map<string, nat>, number: nat, previous: string, group: nat)

  function Indexed(b: Building, key: string, pos: nat, stride: nat): Building
    requires stride > 0
  {
    var first := b.number == 0 || key != b.previous;
    var group := if first then pos else b.group;
    Building(
      if b.number % stride == 0 && key !in b.index then b.index[key := group] else b.index,
      b.number + 1,
      if first then key else b.previous,
      group)
  }

  function BuildFrom(text: string, pos: nat, b: Building, stride: nat): map<string, nat>
    requires pos <= |text| && stride > 0
    decreases |text| - pos
  {
    if pos == |text| then b.index
    else
      match ParseKey(text[pos..LineEnd(text, pos)])
      case None => BuildFrom(text, NextLine(text, pos), b, stride)
      case Some(key) => BuildFrom(text, NextLine(text, pos), Indexed(b, key, pos, stride), stride)
  }

  const START: Building := Building(map[], 0, "", 0)

  /** Record i is the first of its key. */
  ghost predicate GroupStart(rs: seq<Record>, i: nat, key: string) {
    i < |rs| && rs[i].key == key && forall j :: 0 <= j < i ==> rs[j].key != key
  }

  /** Every indexed key points to the first of its versions. */
  ghost predicate IndexOk(rs: seq<Record>, index: map<string, nat>) {
    forall k :: k in index ==> Points(rs, k, index[k])
  }

  ghost predicate Points(rs: seq<Record>, key: string, offset: nat) {
    exists i: nat :: GroupStart(rs, i, key) && offset == Offset(rs, i)
  }

  ghost predicate BuildingOk(rs: seq<Record>, i: nat, b: Building)
    requires i <= |rs|
  {
    && b.number == i
    && IndexOk(rs, b.index)
    && (i > 0 ==> b.previous == rs[i - 1].key && Points(rs, b.previous, b.group) && rs[0].key in b.index)
  }

  /** A record whose key differs from the one before starts a group. */
  lemma NewGroup(rs: seq<Record>, i: nat)
    requires Grouped(rs) && i < |rs| && (i > 0 ==> rs[i].key != rs[i - 1].key)
    ensures GroupStart(rs, i, rs[i].key)
  {
    forall j | 0 <= j < i ensures rs[j].key != rs[i].key {
      assert AtMost(rs[i - 1].key, rs[i].key);
      if j < i - 1 {
        assert AtMost(rs[j].key, rs[i - 1].key);
        LessIrreflexive(rs[i].key);
        if rs[j].key == rs[i].key { LessTransitive(rs[i].key, rs[i - 1].key, rs[i].key); }
      }
    }
  }

  lemma IndexStep(rs: seq<Record>, i: nat, b: Building, stride: nat)
    requires Grouped(rs) && i < |rs| && stride > 0 && BuildingOk(rs, i, b)
    ensures BuildingOk(rs, i + 1, Indexed(b, rs[i].key, Offset(rs, i), stride))
  {
    var key, pos := rs[i].key, Offset(rs, i);
    var b' := Indexed(b, key, pos, stride);
    if i == 0 || key != b.previous {
      NewGroup(rs, i);
    }
    assert Points(rs, key, b'.group);
  }

  lemma {:induction false} BuildRecords(rs: seq<Record>, i: nat, b: Building, stride: nat)
    requires GoodRecords(rs) && Grouped(rs) && i <= |rs| && stride > 0 && BuildingOk(rs, i, b)
    ensures Offset(rs, i) <= |Render(rs)|
    ensures IndexOk(rs, BuildFrom(Render(rs), Offset(rs, i), b, stride))
    ensures rs != [] ==> rs[0].key in BuildFrom(Render(rs), Offset(rs, i), b, stride)
    decreases |rs| - i
  {
    if i == |rs| {
      OffsetEnds(rs);
    } else {
      LineAt(rs, i);
      LineRoundTrip(rs[i]);
      IndexStep(rs, i, b, stride);
      BuildRecords(rs, i + 1, Indexed(b, rs[i].key, Offset(rs, i), stride), stride);
    }
  }

  /** The index of a file, for any stride. */
  function IndexOf(text: string, stride: nat): map<string, nat>
    requires stride > 0
  {
    BuildFrom(text, 0, START, stride)
  }

  /** Where a lookup starts: at the largest indexed key not above the key, else at the smallest. */
  ghost predicate IsStart(index: map<string, nat>, key: string, r: Option<nat>) {
    if index == map[] then r == None
    else exists k :: k in index && r == Some(index[k]) && FloorKey(index, key, k)
  }

  ghost predicate FloorKey(index: map<string, nat>, key: string, k: string) {
    if AtMost(k, key) then forall m :: m in index && AtMost(m, key) ==> AtMost(m, k)
    else forall m :: m in index ==> AtMost(k, m)
  }

  lemma LessAsymmetric(a: string, b: string)
    requires Less(a, b)
    ensures !AtMost(b, a)
  {
    LessIrreflexive(a);
    if Less(b, a) { LessTransitive(a, b, a); }
  }

  lemma AtMostTransitive(a: string, b: string, c: string)
    requires AtMost(a, b) && AtMost(b, c)
    ensures AtMost(a, c)
  {
    if Less(a, b) && Less(b, c) { LessTransitive(a, b, c); }
  }

  /** A lookup does not start above the key when the first key is indexed and not above it. */
  lemma FloorNotAbove(index: map<string, nat>, key: string, k: string, first: string)
    requires FloorKey(index, key, k) && first in index && AtMost(first, key)
    ensures !Less(key, k)
  {
    if !AtMost(k, key) {
      assert AtMost(k, first);
      AtMostTransitive(k, first, key);
    }
    if Less(key, k) { LessAsymmetric(key, k); }
  }

  /** No record before the start has the key. */
  lemma BeforeStart(rs: seq<Record>, index: map<string, nat>, key: string, k: string, i: nat, j: nat)
    requires Grouped(rs) && FloorKey(index, key, k) && GroupStart(rs, i, k) && j < i && rs[0].key in index
    ensures rs[j].key != key
  {
    assert AtMost(rs[j].key, rs[i].key) && rs[j].key != k;
    if rs[j].key == key {
      assert AtMost(rs[0].key, rs[j].key) by { if j > 0 { assert AtMost(rs[0].key, rs[j].key); } }
      FloorNotAbove(index, key, k, rs[0].key);
    }
  }

  /** Nothing before the start offset has the key. */
  lemma StartSkipsNothing(rs: seq<Record>, index: map<string, nat>, key: string, r: Option<nat>) returns (i: nat)
    requires Grouped(rs) && IndexOk(rs, index) && IsStart(index, key, r)
    requires rs != [] ==> rs[0].key in index
    ensures i <= |rs| && (if r == None then 0 else r.value) == Offset(rs, i)
    ensures Of(rs[..i], key) == []
  {
    i := 0;
    OffsetEnds(rs);
    assert rs[..0] == [];
    if index != map[] {
      var k :| k in index && r == Some(index[k]) && FloorKey(index, key, k);
      assert Points(rs, k, index[k]);
      i :| GroupStart(rs, i, k) && index[k] == Offset(rs, i);
      var before := rs[..i];
      forall j | 0 <= j < |before| ensures before[j].key != key {
        BeforeStart(rs, index, key, k, i, j);
      }
      OfNone(before, key);
    }
  }

  // ---- the filter ----

  /** The keys that a file's lines start with. */
  function LineKeys(text: string, pos: nat): set<string>
    requires pos <= |text|
    decreases |text| - pos
  {
    if pos == |text| then {}
    else
      var rest := LineKeys(text, NextLine(text, pos));
      match ParseKey(text[pos..LineEnd(text, pos)])
      case None => rest
      case Some(key) => rest + {key}
  }

  lemma {:induction false} RecordKeysRead(rs: seq<Record>, i: nat, j: nat)
    requires GoodRecords(rs) && i <= j < |rs|
    ensures Offset(rs, i) <= |Render(rs)| && rs[j].key in LineKeys(Render(rs), Offset(rs, i))
    decreases j - i
  {
    LineAt(rs, i);
    LineRoundTrip(rs[i]);
    if i < j {
      RecordKeysRead(rs, i + 1, j);
    }
  }

  /** A key that is in no line has no version in the table. */
  lemma UnreadKey(rs: seq<Record>, key: string)
    requires GoodRecords(rs) && key !in LineKeys(Render(rs), 0)
    ensures Of(rs, key) == []
  {
    OffsetEnds(rs);
    forall i | 0 <= i < |rs| ensures rs[i].key != key {
      RecordKeysRead(rs, 0, i);
    }
    OfNone(rs, key);
  }
}
