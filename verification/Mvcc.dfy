/** Versions, their lookup rules, and the history they are measured against. */
module Mvcc {
  import opened Options

  /** A tombstone is a version without a value. */
  datatype Version = Version(timestamp: nat, value: Option<string>)

  datatype LookupResult = NotFound | Value(value: string) | Tombstone

  /** Versions of each key, in the order they were pushed. */
  type Entries = map<string, seq<Version>>

  function VersionsOf(e: Entries, key: string): seq<Version> {
    if key in e then e[key] else []
  }

  function Push(e: Entries, key: string, v: Version): Entries {
    e[key := VersionsOf(e, key) + [v]]
  }

  function AsResult(v: Version): LookupResult {
    match v.value
    case Some(text) => Value(text)
    case None => Tombstone
  }

  /** What a reader is told: a tombstone and a missing key look the same. */
  function Answer(r: LookupResult): Option<string> {
    if r.Value? then Some(r.value) else None
  }

  // ---- the two lookup rules ----

  /** Scan from the newest pushed version back to the first that is not too new (MemTable::get_at). */
  function Newest(vs: seq<Version>, t: nat): LookupResult {
    if vs == [] then NotFound
    else if vs[|vs| - 1].timestamp <= t then AsResult(vs[|vs| - 1])
    else Newest(vs[..|vs| - 1], t)
  }

  /** The version that scan stops at. */
  function Latest(vs: seq<Version>, t: nat): Option<Version> {
    if vs == [] then None
    else if vs[|vs| - 1].timestamp <= t then Some(vs[|vs| - 1])
    else Latest(vs[..|vs| - 1], t)
  }

  function ResultOf(v: Option<Version>): LookupResult {
    if v.Some? then AsResult(v.value) else NotFound
  }

  /** Scan forward keeping the version with the largest timestamp so far (SSTableReader::get_at). */
  function Best(vs: seq<Version>, t: nat): Option<Version> {
    if vs == [] then None
    else
      var best := Best(vs[..|vs| - 1], t);
      var v := vs[|vs| - 1];
      if v.timestamp <= t && (best == None || v.timestamp >= best.value.timestamp) then Some(v) else best
  }

  function BestResult(vs: seq<Version>, t: nat): LookupResult {
    match Best(vs, t)
    case Some(v) => AsResult(v)
    case None => NotFound
  }

  predicate Increasing(vs: seq<Version>) {
    forall i, j :: 0 <= i < j < |vs| ==> vs[i].timestamp < vs[j].timestamp
  }

  /** v is the version a read at time t must see. */
  ghost predicate Visible(vs: seq<Version>, t: nat, v: Version) {
    && v in vs && v.timestamp <= t
    && forall w :: w in vs && w.timestamp <= t ==> w.timestamp <= v.timestamp
  }

  lemma {:induction false} BestIsVisible(vs: seq<Version>, t: nat)
    ensures Best(vs, t).Some? ==> Visible(vs, t, Best(vs, t).value)
    ensures Best(vs, t) == None ==> forall v :: v in vs ==> v.timestamp > t
  {
    if vs != [] {
      var front, last := vs[..|vs| - 1], vs[|vs| - 1];
      assert vs == front + [last];
      BestIsVisible(front, t);
    }
  }

  lemma {:induction false} NewestIsLatest(vs: seq<Version>, t: nat)
    ensures Newest(vs, t) == ResultOf(Latest(vs, t))
  {
    if vs != [] { NewestIsLatest(vs[..|vs| - 1], t); }
  }

  lemma {:induction false} LatestIsMember(vs: seq<Version>, t: nat)
    ensures Latest(vs, t).Some? ==> Latest(vs, t).value in vs && Latest(vs, t).value.timestamp <= t
  {
    if vs != [] {
      assert vs == vs[..|vs| - 1] + [vs[|vs| - 1]];
      LatestIsMember(vs[..|vs| - 1], t);
    }
  }

  lemma {:induction false} BestIsLatest(vs: seq<Version>, t: nat)
    requires Increasing(vs)
    ensures Best(vs, t) == Latest(vs, t)
  {
    if vs != [] {
      BestIsLatest(vs[..|vs| - 1], t);
      BestIsVisible(vs[..|vs| - 1], t);
    }
  }

  lemma {:induction false} LatestConcat(a: seq<Version>, b: seq<Version>, t: nat)
    ensures Latest(a + b, t) == if Latest(b, t).Some? then Latest(b, t) else Latest(a, t)
  {
    if b == [] {
      assert a + b == a;
    } else {
      assert (a + b)[..|a + b| - 1] == a + b[..|b| - 1];
      LatestConcat(a, b[..|b| - 1], t);
    }
  }

  /** On increasing versions the two rules agree. */
  lemma {:induction false} BestIsNewest(vs: seq<Version>, t: nat)
    requires Increasing(vs)
    ensures BestResult(vs, t) == Newest(vs, t)
  {
    if vs != [] {
      var front, last := vs[..|vs| - 1], vs[|vs| - 1];
      BestIsNewest(front, t);
      BestIsVisible(front, t);
    }
  }

  /** The newest version with timestamp at most t, or nothing when there is none. */
  lemma NewestIsVisible(vs: seq<Version>, t: nat)
    requires Increasing(vs)
    ensures Newest(vs, t) == NotFound <==> forall v :: v in vs ==> v.timestamp > t
    ensures forall v :: Visible(vs, t, v) ==> Newest(vs, t) == AsResult(v)
  {
    BestIsNewest(vs, t);
    BestIsVisible(vs, t);
    forall v | Visible(vs, t, v) ensures Newest(vs, t) == AsResult(v) {
      var b := Best(vs, t).value;
      SameTimestamp(vs, v, b);
    }
  }

  lemma SameTimestamp(vs: seq<Version>, v: Version, w: Version)
    requires Increasing(vs) && v in vs && w in vs && v.timestamp == w.timestamp
    ensures v == w
  {
    var i :| 0 <= i < |vs| && vs[i] == v;
    var j :| 0 <= j < |vs| && vs[j] == w;
  }

  // ---- when the two rules agree ----

  /** A visible version that an older one follows is followed in turn by a visible one at least as new. */
  ghost predicate SettledAt(vs: seq<Version>, t: nat) {
    forall i, j :: 0 <= i < j < |vs| && vs[j].timestamp < vs[i].timestamp <= t ==> Resettled(vs, vs[i].timestamp, j, t)
  }

  predicate Resettled(vs: seq<Version>, since: nat, j: nat, t: nat) {
    exists k :: j < k < |vs| && since <= vs[k].timestamp <= t
  }

  /** No version is followed by an older one without its timestamp being pushed again behind it. */
  ghost predicate Settled(vs: seq<Version>) {
    forall i, j :: 0 <= i < j < |vs| && vs[j].timestamp < vs[i].timestamp ==> PushedAgain(vs, vs[i].timestamp, j)
  }

  predicate PushedAgain(vs: seq<Version>, timestamp: nat, j: nat) {
    exists k :: j < k < |vs| && vs[k].timestamp == timestamp
  }

  /** Where the backward scan stops. */
  lemma {:induction false} LatestIndex(vs: seq<Version>, t: nat) returns (l: nat)
    requires Latest(vs, t).Some?
    ensures l < |vs| && vs[l] == Latest(vs, t).value && vs[l].timestamp <= t
    ensures forall k :: l < k < |vs| ==> vs[k].timestamp > t
  {
    var n := |vs| - 1;
    if vs[n].timestamp <= t {
      l := n;
    } else {
      l := LatestIndex(vs[..n], t);
    }
  }

  lemma {:induction false} LatestNone(vs: seq<Version>, t: nat)
    ensures Latest(vs, t) == None <==> forall i :: 0 <= i < |vs| ==> vs[i].timestamp > t
  {
    if vs != [] { LatestNone(vs[..|vs| - 1], t); }
  }

  /** Where the forward scan stops: the last of the versions with the largest visible timestamp. */
  lemma {:induction false} BestIndex(vs: seq<Version>, t: nat) returns (b: nat)
    requires Best(vs, t).Some?
    ensures b < |vs| && vs[b] == Best(vs, t).value && vs[b].timestamp <= t
    ensures forall k :: 0 <= k < |vs| && vs[k].timestamp <= t ==> vs[k].timestamp <= vs[b].timestamp
    ensures forall k :: b < k < |vs| && vs[k].timestamp <= t ==> vs[k].timestamp < vs[b].timestamp
  {
    var n := |vs| - 1;
    if Best(vs[..n], t).Some? {
      b := BestIndex(vs[..n], t);
      if vs[n].timestamp <= t && vs[n].timestamp >= vs[b].timestamp { b := n; }
    } else {
      b := n;
      BestNone(vs[..n], t);
    }
  }

  lemma {:induction false} BestNone(vs: seq<Version>, t: nat)
    ensures Best(vs, t) == None <==> forall i :: 0 <= i < |vs| ==> vs[i].timestamp > t
  {
    if vs != [] { BestNone(vs[..|vs| - 1], t); }
  }

  /** At one time the last pushed version is the newest exactly when the versions are settled there. */
  lemma LatestIsBestIff(vs: seq<Version>, t: nat)
    ensures Latest(vs, t) == Best(vs, t) <==> SettledAt(vs, t)
  {
    LatestNone(vs, t);
    BestNone(vs, t);
    if Latest(vs, t).Some? {
      var l := LatestIndex(vs, t);
      var b := BestIndex(vs, t);
      if vs[l].timestamp == vs[b].timestamp {
        assert l == b;
        forall i, j | 0 <= i < j < |vs| && vs[j].timestamp < vs[i].timestamp <= t ensures Resettled(vs, vs[i].timestamp, j, t) {
          assert j < l;
        }
      } else {
        assert b < l;
        assert !Resettled(vs, vs[b].timestamp, l, t);
      }
    }
  }

  /** At all times they agree exactly when every version that an older one follows is pushed again behind it. */
  lemma LatestIsBestAlwaysIff(vs: seq<Version>)
    ensures (forall t :: Latest(vs, t) == Best(vs, t)) <==> Settled(vs)
  {
    if Settled(vs) {
      forall t: nat ensures Latest(vs, t) == Best(vs, t) {
        forall i, j | 0 <= i < j < |vs| && vs[j].timestamp < vs[i].timestamp <= t ensures Resettled(vs, vs[i].timestamp, j, t) {
          assert PushedAgain(vs, vs[i].timestamp, j);
        }
        LatestIsBestIff(vs, t);
      }
    } else {
      var i, j :| 0 <= i < j < |vs| && vs[j].timestamp < vs[i].timestamp && !PushedAgain(vs, vs[i].timestamp, j);
      var t := vs[i].timestamp;
      LatestIsBestIff(vs, t);
      assert !Resettled(vs, vs[i].timestamp, j, t);
      assert Latest(vs, t) != Best(vs, t);
    }
  }

  /** A later layer whose versions are all newer hides an earlier one exactly when it has a visible version. */
  lemma {:induction false} BestConcat(a: seq<Version>, b: seq<Version>, t: nat)
    requires forall v, w :: v in a && w in b ==> v.timestamp < w.timestamp
    ensures Best(a + b, t) == if Best(b, t).Some? then Best(b, t) else Best(a, t)
  {
    if b == [] {
      assert a + b == a;
    } else {
      var n := |b| - 1;
      assert (a + b)[..|a + b| - 1] == a + b[..n];
      BestConcat(a, b[..n], t);
      BestIsVisible(a, t);
      assert b[n] in b;
    }
  }

  /** A later layer hides an earlier one exactly when it has a visible version. */
  lemma {:induction false} NewestConcat(a: seq<Version>, b: seq<Version>, t: nat)
    ensures Newest(a + b, t) == if Newest(b, t) != NotFound then Newest(b, t) else Newest(a, t)
  {
    if b == [] {
      assert a + b == a;
    } else {
      assert (a + b)[..|a + b| - 1] == a + b[..|b| - 1];
      NewestConcat(a, b[..|b| - 1], t);
    }
  }

  // ---- the history of a store ----

  /** One logged write. */
  datatype Write = Write(key: string, version: Version)

  /** The versions of one key, oldest first. */
  function HistoryOf(ws: seq<Write>, key: string): seq<Version> {
    if ws == [] then []
    else HistoryOf(ws[..|ws| - 1], key) + if ws[|ws| - 1].key == key then [ws[|ws| - 1].version] else []
  }

  predicate IncreasingWrites(ws: seq<Write>) {
    forall i, j :: 0 <= i < j < |ws| ==> ws[i].version.timestamp < ws[j].version.timestamp
  }

  predicate WritesUpTo(ws: seq<Write>, t: nat) {
    forall i :: 0 <= i < |ws| ==> ws[i].version.timestamp <= t
  }

  /** A key never has two versions under one timestamp. */
  ghost predicate Numbered(ws: seq<Write>) {
    forall a, b :: a in ws && b in ws && a.key == b.key && a.version.timestamp == b.version.timestamp ==> a == b
  }

  /** Every key's versions are settled. */
  ghost predicate Settles(ws: seq<Write>) {
    forall key :: Settled(HistoryOf(ws, key))
  }

  /** The newest version of a key not after t. */
  function NewestVersion(ws: seq<Write>, key: string, t: nat): Option<Version> {
    Best(HistoryOf(ws, key), t)
  }

  lemma {:induction false} HistoryConcat(a: seq<Write>, b: seq<Write>, key: string)
    ensures HistoryOf(a + b, key) == HistoryOf(a, key) + HistoryOf(b, key)
  {
    if b == [] {
      assert a + b == a;
    } else {
      assert (a + b)[..|a + b| - 1] == a + b[..|b| - 1];
      HistoryConcat(a, b[..|b| - 1], key);
    }
  }

  lemma {:induction false} HistoryFrom(ws: seq<Write>, key: string)
    ensures forall v :: v in HistoryOf(ws, key) <==> Write(key, v) in ws
  {
    if ws != [] {
      var front, last := ws[..|ws| - 1], ws[|ws| - 1];
      assert ws == front + [last];
      HistoryFrom(front, key);
    }
  }

  lemma {:induction false} HistoryIncreasing(ws: seq<Write>, key: string)
    requires IncreasingWrites(ws)
    ensures Increasing(HistoryOf(ws, key))
  {
    if ws != [] {
      var front, last := ws[..|ws| - 1], ws[|ws| - 1];
      HistoryIncreasing(front, key);
      HistoryFrom(front, key);
      var h := HistoryOf(front, key);
      forall i | 0 <= i < |h| ensures h[i].timestamp < last.version.timestamp {
        assert h[i] in h;
        assert Write(key, h[i]) in front;
      }
    }
  }

  /** The entries hold exactly these writes. */
  ghost predicate Holds(e: Entries, ws: seq<Write>) {
    forall key :: HoldsAt(e, ws, key)
  }

  predicate HoldsAt(e: Entries, ws: seq<Write>, key: string) {
    VersionsOf(e, key) == HistoryOf(ws, key)
  }

  lemma PushHolds(e: Entries, ws: seq<Write>, w: Write)
    requires Holds(e, ws)
    ensures Holds(Push(e, w.key, w.version), ws + [w])
  {
    assert (ws + [w])[..|ws|] == ws;
    forall key ensures HoldsAt(Push(e, w.key, w.version), ws + [w], key) {
      assert HoldsAt(e, ws, key);
    }
  }

  /** What the store must answer at time t: the newest version not after t. */
  function Expected(ws: seq<Write>, key: string, t: nat): Option<string> {
    Answer(Newest(HistoryOf(ws, key), t))
  }
}
