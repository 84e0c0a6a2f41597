/** Key encodings and the metadata text of the object store (include/kv/object_store_key_codec.h, src/object_store.cpp). */
module ObjectKeys {
  import opened Options
  import opened Decimal
  import opened TableText

  // ---- keys ----

  function BucketMetaKey(bucket: string): string {
    "bucket:" + bucket
  }

  function ObjectMetaKey(bucket: string, key: string): string {
    "objmeta:" + bucket + ":" + key
  }

  function BucketIndexKey(bucket: string, key: string): string {
    "bucketidx:" + bucket + ":" + key
  }

  function ChunkKey(id: string, index: nat): string {
    "objchunk:" + id + ":" + ToString(index)
  }

  /** Bucket, key and the clock in milliseconds. */
  function ObjectId(bucket: string, key: string, ms: nat): string {
    bucket + ":" + key + ":" + ToString(ms)
  }

  predicate IsObjectMeta(key: string) {
    "objmeta:" <= key
  }

  predicate IsChunk(key: string) {
    "objchunk:" <= key
  }

  /** One past the last colon, or 0. */
  function AfterLastColon(s: string): (n: nat)
    ensures n <= |s|
  {
    if s == "" then 0 else if s[|s| - 1] == ':' then |s| else AfterLastColon(s[..|s| - 1])
  }

  /** The object id in a chunk key that garbage collection looks at; an empty id is skipped. */
  function Owner(key: string): Option<string> {
    if !IsChunk(key) then None
    else
      var n := AfterLastColon(key);
      if n <= 10 then None else Some(key[9..n - 1])
  }

  lemma {:induction false} LastColonAt(a: string, digits: string)
    requires AllDigits(digits)
    ensures AfterLastColon(a + ":" + digits) == |a| + 1
  {
    var s := a + ":" + digits;
    if digits == "" {
      assert s == a + ":";
    } else {
      assert s[|s| - 1] == digits[|digits| - 1];
      assert s[..|s| - 1] == a + ":" + digits[..|digits| - 1];
      LastColonAt(a, digits[..|digits| - 1]);
    }
  }

  /** A name and a number behind the last colon can be told apart. */
  lemma NumberedInjective(a: string, m: nat, b: string, n: nat)
    requires a + ":" + ToString(m) == b + ":" + ToString(n)
    ensures a == b && m == n
  {
    var s, t := a + ":" + ToString(m), b + ":" + ToString(n);
    LastColonAt(a, ToString(m));
    LastColonAt(b, ToString(n));
    assert a == s[..|a|] && b == t[..|b|];
    assert ToString(m) == s[|a| + 1..] && ToString(n) == t[|b| + 1..];
    ToStringInjective(m, n);
  }

  lemma ChunkKeyInjective(id: string, i: nat, id': string, j: nat)
    requires ChunkKey(id, i) == ChunkKey(id', j)
    ensures id == id' && i == j
  {
    NumberedInjective("objchunk:" + id, i, "objchunk:" + id', j);
    assert id == ("objchunk:" + id)[9..] && id' == ("objchunk:" + id')[9..];
  }

  lemma ObjectIdInjective(bucket: string, key: string, ms: nat, bucket': string, key': string, ms': nat)
    requires ObjectId(bucket, key, ms) == ObjectId(bucket', key', ms')
    ensures ms == ms'
  {
    NumberedInjective(bucket + ":" + key, ms, bucket' + ":" + key', ms');
  }

  /** With colon-free bucket names an object id tells bucket, key and time. */
  lemma ObjectIdNames(bucket: string, key: string, ms: nat, bucket': string, key': string, ms': nat)
    requires ObjectId(bucket, key, ms) == ObjectId(bucket', key', ms') && ':' !in bucket && ':' !in bucket'
    ensures bucket == bucket' && key == key' && ms == ms'
  {
    NumberedInjective(bucket + ":" + key, ms, bucket' + ":" + key', ms');
    FirstColon(bucket, key, bucket', key');
  }

  lemma OwnerOfChunk(id: string, i: nat)
    ensures Owner(ChunkKey(id, i)) == if id == "" then None else Some(id)
  {
    var k := ChunkKey(id, i);
    LastColonAt("objchunk:" + id, ToString(i));
    assert k[9..9 + |id|] == id;
  }

  /** The four kinds of keys never meet. */
  lemma KindsDiffer(bucket: string, key: string, id: string, i: nat)
    ensures forall other :: BucketIndexKey(bucket, key) != BucketMetaKey(other)
    ensures IsObjectMeta(ObjectMetaKey(bucket, key)) && !IsChunk(ObjectMetaKey(bucket, key))
    ensures IsChunk(ChunkKey(id, i)) && !IsObjectMeta(ChunkKey(id, i))
    ensures !IsObjectMeta(BucketIndexKey(bucket, key)) && !IsChunk(BucketIndexKey(bucket, key))
    ensures !IsObjectMeta(BucketMetaKey(bucket)) && !IsChunk(BucketMetaKey(bucket))
  {
    assert ObjectMetaKey(bucket, key)[3] == 'm' && ChunkKey(id, i)[3] == 'c';
    assert BucketIndexKey(bucket, key)[0] == 'b' && BucketMetaKey(bucket)[0] == 'b';
    forall other ensures BucketIndexKey(bucket, key) != BucketMetaKey(other) {
      assert BucketIndexKey(bucket, key)[6] == 'i' && BucketMetaKey(other)[6] == ':';
    }
  }

  function BeforeColon(s: string): (n: nat)
    ensures n <= |s|
  {
    if s == "" || s[0] == ':' then 0 else 1 + BeforeColon(s[1..])
  }

  lemma {:induction false} FirstColonAt(a: string, x: string)
    requires ':' !in a
    ensures BeforeColon(a + ":" + x) == |a|
  {
    if a == "" {
      assert (a + ":" + x)[0] == ':';
    } else {
      assert (a + ":" + x)[1..] == a[1..] + ":" + x;
      FirstColonAt(a[1..], x);
    }
  }

  lemma FirstColon(a: string, x: string, b: string, y: string)
    requires a + ":" + x == b + ":" + y && ':' !in a && ':' !in b
    ensures a == b && x == y
  {
    var s, t := a + ":" + x, b + ":" + y;
    FirstColonAt(a, x);
    FirstColonAt(b, y);
    assert a == s[..|a|] && b == t[..|b|];
    assert x == s[|a| + 1..] && y == t[|b| + 1..];
  }

  /** Bucket names without a colon keep objects apart. */
  lemma MetaKeyInjective(bucket: string, key: string, bucket': string, key': string)
    requires ObjectMetaKey(bucket, key) == ObjectMetaKey(bucket', key') && ':' !in bucket && ':' !in bucket'
    ensures bucket == bucket' && key == key'
  {
    var a, b := ObjectMetaKey(bucket, key), ObjectMetaKey(bucket', key');
    assert bucket + ":" + key == a[8..] && bucket' + ":" + key' == b[8..];
    FirstColon(bucket, key, bucket', key');
  }

  /** Two buckets have an object each under one metadata key; a put refuses empty names. */
  ghost predicate BucketsMeet(b: string, c: string) {
    b != "" && c != "" && exists k, l :: k != "" && l != "" && KeysMeet(b, k, c, l)
  }

  predicate KeysMeet(b: string, k: string, c: string, l: string) {
    ObjectMetaKey(b, k) == ObjectMetaKey(c, l)
  }

  /** The longer of two buckets that meet begins with the shorter and a colon. */
  lemma MeetShape(b: string, k: string, c: string, l: string)
    requires KeysMeet(b, k, c, l) && b != c && |b| <= |c|
    ensures b + ":" <= c
  {
    var s, t := b + ":" + k, c + ":" + l;
    assert s == ObjectMetaKey(b, k)[8..] && t == ObjectMetaKey(c, l)[8..];
    assert b == s[..|b|] && c == t[..|c|];
    if |b| < |c| {
      assert s[|b|] == ':' && t[|b|] == c[|b|];
      assert c[..|b|] == b;
    }
  }

  lemma MeetWitness(b: string, c: string)
    requires b + ":" <= c
    ensures KeysMeet(b, c[|b| + 1..] + ":x", c, "x")
  {
    var rest := c[|b| + 1..];
    assert c == b + ":" + rest;
    assert ObjectMetaKey(b, rest + ":x") == "objmeta:" + (b + ":" + rest) + ":x";
    assert ObjectMetaKey(c, "x") == "objmeta:" + c + ":x";
  }

  /** Different buckets share a metadata key for some objects exactly when one is the other followed by a colon and more. */
  lemma BucketsMeetIff(b: string, c: string)
    requires b != c
    ensures BucketsMeet(b, c) <==> b != "" && c != "" && (b + ":" <= c || c + ":" <= b)
  {
    if b + ":" <= c {
      MeetWitness(b, c);
    } else if c + ":" <= b {
      MeetWitness(c, b);
      assert KeysMeet(b, "x", c, b[|c| + 1..] + ":x");
    } else {
      forall k, l ensures !KeysMeet(b, k, c, l) {
        if KeysMeet(b, k, c, l) {
          if |b| <= |c| { MeetShape(b, k, c, l); } else { MeetShape(c, l, b, k); }
        }
      }
    }
  }

  // ---- metadata ----

  const COMMITTED: nat := 1
  const DELETED: nat := 2
  const WIDTH32: nat := 0x1_0000_0000

  datatype Metadata = Metadata(
    objectId: string, bucket: string, key: string,
    size: nat, chunkCount: nat, chunkSize: nat,
    contentType: string, etag: string,
    created: nat, updated: nat, state: nat)

  function FieldsOf(m: Metadata): seq<string> {
    [m.objectId, m.bucket, m.key, ToString(m.size), ToString(m.chunkCount), ToString(m.chunkSize),
     m.contentType, m.etag, ToString(m.created), ToString(m.updated), ToString(m.state)]
  }

  function Join(fields: seq<string>): string {
    if fields == [] then ""
    else if |fields| == 1 then fields[0]
    else fields[0] + "\t" + Join(fields[1..])
  }

  function Serialize(m: Metadata): string {
    Join(FieldsOf(m))
  }

  /** Length of the part before the first tab. */
  function TabAt(s: string): (n: nat)
    ensures n <= |s| && (n < |s| ==> s[n] == '\t')
  {
    if s == "" || s[0] == '\t' then 0 else 1 + TabAt(s[1..])
  }

  /** n times std::getline up to a tab; it fails when nothing is left. */
  function TakeFields(s: string, n: nat): Option<seq<string>>
    decreases n
  {
    if n == 0 then Some([])
    else if s == "" then None
    else
      var k := TabAt(s);
      match TakeFields(if k < |s| then s[k + 1..] else "", n - 1)
      case None => None
      case Some(rest) => Some([s[..k]] + rest)
  }

  /** Leading white space, then digits; anything behind them is ignored. */
  function ParseNumber(s: string): Option<nat> {
    var a := SkipSpaces(s);
    var n := DigitsLength(a);
    if n == 0 then None else Some(Parse(a[..n]))
  }

  /** Counts are cut to 32 bits, the state to 8. */
  function Build(f: seq<string>, size: Option<nat>, count: Option<nat>, chunk: Option<nat>, created: Option<nat>, updated: Option<nat>, state: Option<nat>): Option<Metadata>
    requires |f| == 11
  {
    if size.Some? && count.Some? && chunk.Some? && created.Some? && updated.Some? && state.Some? then
      Some(Metadata(f[0], f[1], f[2], size.value, count.value % WIDTH32, chunk.value % WIDTH32, f[6], f[7],
                    created.value, updated.value, state.value % 256))
    else None
  }

  function FromFields(f: seq<string>): Option<Metadata>
    requires |f| == 11
  {
    Build(f, ParseNumber(f[3]), ParseNumber(f[4]), ParseNumber(f[5]), ParseNumber(f[8]), ParseNumber(f[9]), ParseNumber(f[10]))
  }

  lemma {:induction false} TakeLength(s: string, n: nat)
    ensures TakeFields(s, n).Some? ==> |TakeFields(s, n).value| == n
    decreases n
  {
    if n > 0 && s != "" {
      var k := TabAt(s);
      TakeLength(if k < |s| then s[k + 1..] else "", n - 1);
    }
  }

  function Deserialize(s: string): Option<Metadata> {
    match TakeFields(s, 11)
    case None => None
    case Some(f) => TakeLength(s, 11); FromFields(f)
  }

  predicate TabFree(s: string) {
    '\t' !in s
  }

  /** Metadata that the text can carry. */
  predicate Plain(m: Metadata) {
    && TabFree(m.objectId) && TabFree(m.bucket) && TabFree(m.key) && TabFree(m.contentType) && TabFree(m.etag)
    && m.chunkCount < WIDTH32 && m.chunkSize < WIDTH32 && m.state < 256
  }

  lemma IdTabFree(bucket: string, key: string, ms: nat)
    requires TabFree(bucket) && TabFree(key)
    ensures TabFree(ObjectId(bucket, key, ms))
  {
    assert forall c :: c in ToString(ms) ==> IsDigit(c);
  }

  lemma {:induction false} TabAfter(a: string, rest: string)
    requires TabFree(a) && (rest == "" || rest[0] == '\t')
    ensures TabAt(a + rest) == |a|
  {
    if a == "" {
      assert a + rest == rest;
    } else {
      assert (a + rest)[1..] == a[1..] + rest;
      TabAfter(a[1..], rest);
    }
  }

  lemma TakeOne(a: string, rest: string, n: nat)
    requires TabFree(a)
    ensures TakeFields(a + ("\t" + rest), n + 1) ==
      match TakeFields(rest, n)
      case None => None
      case Some(f) => Some([a] + f)
  {
    var s := a + ("\t" + rest);
    TabAfter(a, "\t" + rest);
    assert s[..|a|] == a && s[|a| + 1..] == rest;
  }

  lemma TakeLast(a: string)
    requires TabFree(a) && a != ""
    ensures TakeFields(a, 1) == Some([a])
  {
    TabAfter(a, "");
    assert a + "" == a && a[..|a|] == a;
    assert TakeFields("", 0) == Some([]);
    assert [a] + [] == [a];
  }

  lemma JoinOne(fields: seq<string>)
    requires |fields| > 1
    ensures Join(fields) == fields[0] + ("\t" + Join(fields[1..]))
  {
  }

  lemma TakeFirst(fields: seq<string>)
    requires |fields| > 1 && TabFree(fields[0])
    requires TakeFields(Join(fields[1..]), |fields| - 1) == Some(fields[1..])
    ensures TakeFields(Join(fields), |fields|) == Some(fields)
  {
    JoinOne(fields);
    TakeOne(fields[0], Join(fields[1..]), |fields| - 1);
    assert [fields[0]] + fields[1..] == fields;
  }

  predicate Splittable(fields: seq<string>) {
    fields != [] && (forall i :: 0 <= i < |fields| ==> TabFree(fields[i])) && fields[|fields| - 1] != ""
  }

  lemma {:induction false} TakeJoin(fields: seq<string>)
    requires Splittable(fields)
    ensures TakeFields(Join(fields), |fields|) == Some(fields)
  {
    if |fields| == 1 {
      TakeLast(fields[0]);
      assert [fields[0]] == fields;
    } else {
      TakeJoin(fields[1..]);
      TakeFirst(fields);
    }
  }

  lemma NumberRoundTrip(n: nat)
    ensures ParseNumber(ToString(n)) == Some(n) && TabFree(ToString(n))
  {
    var s := ToString(n);
    assert IsDigit(s[0]);
    DigitsLengthOf(s, "");
    assert s + "" == s && s[..|s|] == s;
    ParseToString(n);
    assert forall i :: 0 <= i < |s| ==> IsDigit(s[i]);
  }

  lemma FieldsPlain(m: Metadata)
    requires Plain(m)
    ensures forall i :: 0 <= i < |FieldsOf(m)| ==> TabFree(FieldsOf(m)[i])
  {
    NumberRoundTrip(m.size);
    NumberRoundTrip(m.chunkCount);
    NumberRoundTrip(m.chunkSize);
    NumberRoundTrip(m.created);
    NumberRoundTrip(m.updated);
    NumberRoundTrip(m.state);
  }

  lemma BuildBack(f: seq<string>, m: Metadata)
    requires Plain(m) && |f| == 11
    requires f[0] == m.objectId && f[1] == m.bucket && f[2] == m.key && f[6] == m.contentType && f[7] == m.etag
    ensures Build(f, Some(m.size), Some(m.chunkCount), Some(m.chunkSize), Some(m.created), Some(m.updated), Some(m.state)) == Some(m)
  {
  }

  lemma FieldsRoundTrip(m: Metadata)
    requires Plain(m)
    ensures FromFields(FieldsOf(m)) == Some(m)
  {
    NumberRoundTrip(m.size);
    NumberRoundTrip(m.chunkCount);
    NumberRoundTrip(m.chunkSize);
    NumberRoundTrip(m.created);
    NumberRoundTrip(m.updated);
    NumberRoundTrip(m.state);
    BuildBack(FieldsOf(m), m);
  }

  /** Metadata reads back as it was written. */
  lemma MetadataRoundTrip(m: Metadata)
    requires Plain(m)
    ensures Deserialize(Serialize(m)) == Some(m)
  {
    FieldsPlain(m);
    TakeJoin(FieldsOf(m));
    FieldsRoundTrip(m);
  }
}
