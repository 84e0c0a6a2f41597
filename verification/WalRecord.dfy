/** The binary record of the log and how replay reads one back (src/wal.cpp). */
module WalRecords {
  import opened Options
  import opened Crc

  datatype Op = Put(number: nat, key: Bytes, value: Bytes) | Del(number: nat, key: Bytes)

  const MAGIC: nat := 0x474C_564B
  const VERSION: nat := 1
  const HEADER: nat := 23

  // ---- numbers, lowest byte first ----

  function Little(n: nat, k: nat): (r: Bytes)
    ensures |r| == k
  {
    if k == 0 then [] else [(n % 256) as bv8] + Little(n / 256, k - 1)
  }

  function Number(b: Bytes): nat {
    if b == [] then 0 else b[0] as int + 256 * Number(b[1..])
  }

  /** How many numbers k bytes can hold. */
  function Range(k: nat): nat {
    if k == 0 then 1 else 256 * Range(k - 1)
  }

  lemma {:induction false} NumberOfLittle(n: nat, k: nat)
    requires n < Range(k)
    ensures Number(Little(n, k)) == n
  {
    if k > 0 {
      NumberOfLittle(n / 256, k - 1);
      assert Little(n, k)[1..] == Little(n / 256, k - 1);
      ByteOf(n % 256);
    }
  }

  lemma ByteOf(x: nat)
    requires x < 256
    ensures (x as bv8) as int == x
  {
    if x < 128 {
      if x < 64 { } else { }
    } else {
      if x < 192 { } else { }
    }
  }

  // ---- the checksum ----

  function Split(c: bv32): (w: Bytes)
    ensures |w| == 4
  {
    [(c & 0xFF) as bv8, ((c >> 8) & 0xFF) as bv8, ((c >> 16) & 0xFF) as bv8, ((c >> 24) & 0xFF) as bv8]
  }

  lemma WordOfSplit(c: bv32)
    ensures Word(Split(c)) == c
  {
    assert (((c & 0xFF) as bv8) as bv32) ^ ((((c >> 8) & 0xFF) as bv8) as bv32 << 8)
         ^ ((((c >> 16) & 0xFF) as bv8) as bv32 << 16) ^ ((((c >> 24) & 0xFF) as bv8) as bv32 << 24) == c;
  }

  /** The four bytes written after a body. */
  function Stored(body: Bytes): (w: Bytes)
    ensures |w| == 4
  {
    Split(Update(0, body))
  }

  predicate Checked(body: Bytes, w: Bytes)
    requires |w| == 4
  {
    Update(0, body) == Word(w)
  }

  lemma StoredChecks(body: Bytes)
    ensures Checked(body, Stored(body))
  {
    WordOfSplit(Update(0, body));
  }

  /** Two messages with right checksums never differ in four neighbouring bytes only. */
  lemma BurstBreaksChecksum(body: Bytes, w: Bytes, body': Bytes, w': Bytes, a: Bytes, x: Bytes, y: Bytes, z: Bytes)
    requires |w| == 4 && |w'| == 4 && |x| == 4 && |y| == 4 && x != y
    requires body + w == a + x + z && body' + w' == a + y + z
    requires Checked(body, w)
    ensures !Checked(body', w')
  {
    ChecksumIsResidue(body, w);
    ChecksumIsResidue(body', w');
    BurstChangesRaw(ONES, a, x, y, z);
  }

  // ---- writing ----

  function Kind(op: Op): nat {
    if op.Put? then 1 else 2
  }

  function ValueOf(op: Op): Bytes {
    if op.Put? then op.value else []
  }

  /** Lengths and number are cut to the width of their field. */
  function Header(op: Op): (h: Bytes)
    ensures |h| == HEADER
  {
    Little(MAGIC, 4) + Little(VERSION, 2) + Little(Kind(op), 1) + Little(|op.key|, 4) + Little(|ValueOf(op)|, 4) + Little(op.number, 8)
  }

  function Body(op: Op): Bytes {
    Header(op) + op.key + ValueOf(op)
  }

  function Encode(op: Op): Bytes {
    Body(op) + Stored(Body(op))
  }

  /** The header can hold the lengths and the sequence number. */
  predicate Fits(op: Op) {
    op.number < Range(8) && |op.key| < Range(4) && |ValueOf(op)| < Range(4)
  }

  // ---- reading ----

  /** The fields of a header that starts a byte string. */
  datatype Fields = Fields(magic: nat, version: nat, kind: nat, keyLength: nat, valueLength: nat, number: nat)

  function FieldsOf(b: Bytes): Fields
    requires |b| >= HEADER
  {
    Fields(Number(b[..4]), Number(b[4..6]), Number(b[6..7]), Number(b[7..11]), Number(b[11..15]), Number(b[15..23]))
  }

  predicate GoodHeader(f: Fields) {
    f.magic == MAGIC && f.version == VERSION && (f.kind == 1 || f.kind == 2)
  }

  /** The length of header, key and value; a deletion has no value whatever its length field says. */
  function BodyLength(f: Fields): (n: nat)
    ensures n >= HEADER + f.keyLength
  {
    HEADER + f.keyLength + if f.kind == 1 then f.valueLength else 0
  }

  datatype Frame = Frame(op: Op, size: nat)

  function Decode(b: Bytes): (r: Option<Frame>)
    ensures r.Some? ==> HEADER + 4 <= r.value.size <= |b|
  {
    if |b| < HEADER then None else
    var f := FieldsOf(b);
    if !GoodHeader(f) then None else
    var n := BodyLength(f);
    if |b| < n + 4 || !Checked(b[..n], b[n..n + 4]) then None else Some(FrameOf(b, f))
  }

  function FrameOf(b: Bytes, f: Fields): Frame
    requires BodyLength(f) <= |b|
  {
    var k, n := HEADER + f.keyLength, BodyLength(f);
    Frame(if f.kind == 1 then Put(f.number, b[HEADER..k], b[k..n]) else Del(f.number, b[HEADER..k]), n + 4)
  }

  lemma DecodeBody(b: Bytes, right: bool)
    requires |b| >= HEADER && GoodHeader(FieldsOf(b))
    requires var n := BodyLength(FieldsOf(b)); |b| >= n + 4 && right == Checked(b[..n], b[n..n + 4])
    ensures Decode(b) == if right then Some(FrameOf(b, FieldsOf(b))) else None
  {
  }

  /** What acceptance says about the bytes. */
  lemma Accepted(b: Bytes)
    requires Decode(b).Some?
    ensures |b| >= HEADER && GoodHeader(FieldsOf(b))
    ensures var n := BodyLength(FieldsOf(b)); |b| >= n + 4 && Checked(b[..n], b[n..n + 4])
    ensures Decode(b).value == FrameOf(b, FieldsOf(b))
  {
  }

  // ---- round trip ----

  lemma HeaderParts(a: Bytes, b: Bytes, c: Bytes, d: Bytes, e: Bytes, g: Bytes, h: Bytes)
    requires |a| == 4 && |b| == 2 && |c| == 1 && |d| == 4 && |e| == 4 && |g| == 8
    requires a + b + c + d + e + g <= h
    ensures |h| >= HEADER
    ensures h[..4] == a && h[4..6] == b && h[6..7] == c && h[7..11] == d && h[11..15] == e && h[15..23] == g
  {
    var all := a + b + c + d + e + g;
    assert all == h[..23];
    assert a == all[..4] && b == all[4..6] && c == all[6..7] && d == all[7..11] && e == all[11..15] && g == all[15..23];
    assert forall i, j :: 0 <= i <= j <= 23 ==> h[i..j] == all[i..j];
  }

  lemma Ranges()
    ensures MAGIC < Range(4) && VERSION < Range(2) && 2 < Range(1)
  {
    assert Range(1) == 256 && Range(2) == 256 * 256;
    assert Range(3) == 256 * Range(2) && Range(4) == 256 * Range(3);
  }

  /** A header gives back its fields. */
  lemma HeaderFields(op: Op, b: Bytes)
    requires Fits(op) && Header(op) <= b
    ensures |b| >= HEADER
    ensures FieldsOf(b) == Fields(MAGIC, VERSION, Kind(op), |op.key|, |ValueOf(op)|, op.number)
  {
    HeaderParts(Little(MAGIC, 4), Little(VERSION, 2), Little(Kind(op), 1), Little(|op.key|, 4), Little(|ValueOf(op)|, 4), Little(op.number, 8), b);
    Ranges();
    NumberOfLittle(MAGIC, 4);
    NumberOfLittle(VERSION, 2);
    NumberOfLittle(Kind(op), 1);
    NumberOfLittle(|op.key|, 4);
    NumberOfLittle(|ValueOf(op)|, 4);
    NumberOfLittle(op.number, 8);
  }

  lemma Parts(h: Bytes, key: Bytes, value: Bytes, w: Bytes, rest: Bytes)
    ensures var b := h + key + value + w + rest; var k := |h| + |key|; var n := k + |value|;
      h <= b && b[|h|..k] == key && b[k..n] == value && b[..n] == h + key + value && b[n..n + |w|] == w
  {
  }

  lemma DecodeFields(op: Op, b: Bytes)
    requires |b| >= HEADER + |op.key| + |ValueOf(op)| + 4
    requires FieldsOf(b) == Fields(MAGIC, VERSION, Kind(op), |op.key|, |ValueOf(op)|, op.number)
    requires var k := HEADER + |op.key|; var n := k + |ValueOf(op)|;
      b[HEADER..k] == op.key && b[k..n] == ValueOf(op) && Checked(b[..n], b[n..n + 4])
    ensures Decode(b) == Some(Frame(op, HEADER + |op.key| + |ValueOf(op)| + 4))
  {
    var f := Fields(MAGIC, VERSION, Kind(op), |op.key|, |ValueOf(op)|, op.number);
    FrameFields(op, b, f);
    DecodeAs(b, f, HEADER + |op.key| + |ValueOf(op)|);
  }

  lemma DecodeAs(b: Bytes, f: Fields, n: nat)
    requires |b| >= HEADER && FieldsOf(b) == f && GoodHeader(f) && n == BodyLength(f)
    requires |b| >= n + 4 && Checked(b[..n], b[n..n + 4])
    ensures Decode(b) == Some(FrameOf(b, f))
  {
    DecodeBody(b, true);
  }

  lemma FrameFields(op: Op, b: Bytes, f: Fields)
    requires |b| >= HEADER + |op.key| + |ValueOf(op)| + 4
    requires f == Fields(MAGIC, VERSION, Kind(op), |op.key|, |ValueOf(op)|, op.number)
    requires var k := HEADER + |op.key|; b[HEADER..k] == op.key && b[k..k + |ValueOf(op)|] == ValueOf(op)
    ensures GoodHeader(f) && BodyLength(f) == HEADER + |op.key| + |ValueOf(op)|
    ensures FrameOf(b, f) == Frame(op, HEADER + |op.key| + |ValueOf(op)| + 4)
  {
  }

  lemma EncodedParts(op: Op, rest: Bytes, b: Bytes)
    requires b == Encode(op) + rest
    ensures var k := HEADER + |op.key|; var n := k + |ValueOf(op)|;
      && |Encode(op)| == n + 4 && |b| >= n + 4 && Header(op) <= b
      && b[HEADER..k] == op.key && b[k..n] == ValueOf(op) && b[..n] == Body(op) && b[n..n + 4] == Stored(Body(op))
  {
    assert b == Header(op) + op.key + ValueOf(op) + Stored(Body(op)) + rest;
    Parts(Header(op), op.key, ValueOf(op), Stored(Body(op)), rest);
  }

  lemma EncodedChecks(op: Op, rest: Bytes, b: Bytes)
    requires b == Encode(op) + rest
    ensures var n := HEADER + |op.key| + |ValueOf(op)|; |b| >= n + 4 && Checked(b[..n], b[n..n + 4])
  {
    EncodedParts(op, rest, b);
    StoredChecks(Body(op));
  }

  /** The number that four bytes stand for, lowest first. */
  function Four(b: Bytes): nat
    requires |b| == 4
  {
    b[0] as int + 256 * (b[1] as int) + 65536 * (b[2] as int) + 16777216 * (b[3] as int)
  }

  lemma NumberIsFour(b: Bytes)
    requires |b| == 4
    ensures Number(b) == Four(b)
  {
    assert b[1..][1..] == b[2..] && b[2..][1..] == b[3..] && b[3..][1..] == [];
    assert Number(b[3..]) == b[3] as int;
    assert Number(b[2..]) == b[2] as int + 256 * (b[3] as int);
    assert Number(b[1..]) == b[1] as int + 256 * (b[2] as int) + 65536 * (b[3] as int);
  }

  lemma LittleStep(n: nat, k: nat, x: nat, rest: nat, b: bv8)
    requires k > 0 && n == x + 256 * rest && x < 256 && x as bv8 == b
    ensures Little(n, k) == [b] + Little(rest, k - 1)
  {
    assert n % 256 == x && n / 256 == rest;
  }

  lemma MagicBytes()
    ensures Little(MAGIC, 4) == [0x4B, 0x56, 0x4C, 0x47]
  {
    LittleStep(0x474C_564B, 4, 0x4B, 0x47_4C56, 0x4B);
    LittleStep(0x47_4C56, 3, 0x56, 0x474C, 0x56);
    LittleStep(0x474C, 2, 0x4C, 0x47, 0x4C);
    LittleStep(0x47, 1, 0x47, 0, 0x47);
  }

  lemma VersionBytes()
    ensures Little(VERSION, 2) == [1, 0]
  {
    LittleStep(1, 2, 1, 0, 1);
    LittleStep(0, 1, 0, 0, 0);
  }

  lemma KindByte(op: Op)
    ensures Little(Kind(op), 1) == [if op.Put? then 1 else 2]
  {
    LittleStep(Kind(op), 1, Kind(op), 0, if op.Put? then 1 else 2);
  }

  /** Where everything stands in a record: "KVLG", version, type, lengths, number, key, value, checksum. */
  lemma RecordLayout(op: Op)
    requires Fits(op)
    ensures var r := Encode(op); var k := 23 + |op.key|; var n := k + |ValueOf(op)|;
      && |r| == n + 4
      && r[..7] == [0x4B, 0x56, 0x4C, 0x47, 1, 0, if op.Put? then 1 else 2]
      && Four(r[7..11]) == |op.key| && Four(r[11..15]) == |ValueOf(op)| && Number(r[15..23]) == op.number
      && r[23..k] == op.key && r[k..n] == ValueOf(op) && Word(r[n..]) == Update(0, r[..n])
  {
    var r := Encode(op);
    assert r + [] == r;
    EncodedParts(op, [], r);
    LayoutNumbers(op, r);
    FirstBytes(op, r);
    StoredChecks(Body(op));
    var n := 23 + |op.key| + |ValueOf(op)|;
    assert r[n..] == r[n..n + 4];
  }

  lemma LayoutNumbers(op: Op, r: Bytes)
    requires Fits(op) && Header(op) <= r
    ensures |r| >= 23 && Four(r[7..11]) == |op.key| && Four(r[11..15]) == |ValueOf(op)| && Number(r[15..23]) == op.number
  {
    HeaderFields(op, r);
    NumberIsFour(r[7..11]);
    NumberIsFour(r[11..15]);
  }

  lemma FirstBytes(op: Op, r: Bytes)
    requires Header(op) <= r
    ensures |r| >= 7 && r[..7] == [0x4B, 0x56, 0x4C, 0x47, 1, 0, if op.Put? then 1 else 2]
  {
    var h := Little(MAGIC, 4) + Little(VERSION, 2) + Little(Kind(op), 1);
    MagicBytes();
    VersionBytes();
    KindByte(op);
    assert Header(op)[..7] == h;
    assert r[..7] == Header(op)[..7];
  }

  lemma DecodeOf(op: Op, rest: Bytes, b: Bytes)
    requires Fits(op) && b == Encode(op) + rest
    ensures Decode(b) == Some(Frame(op, |Encode(op)|))
  {
    EncodedChecks(op, rest, b);
    EncodedParts(op, rest, b);
    HeaderFields(op, b);
    DecodeFields(op, b);
  }

  /** A written record reads back as the operation it came from, whatever follows it. */
  lemma DecodeEncode(op: Op, rest: Bytes)
    requires Fits(op)
    ensures Decode(Encode(op) + rest) == Some(Frame(op, |Encode(op)|))
  {
    DecodeOf(op, rest, Encode(op) + rest);
  }

  /** Nothing short of the whole record is accepted. */
  lemma DecodeCut(op: Op, n: nat)
    requires Fits(op) && n < |Encode(op)|
    ensures Decode(Encode(op)[..n]) == None
  {
    var b := Encode(op)[..n];
    if n >= HEADER {
      assert Encode(op)[..HEADER] == Header(op);
      assert Header(op) <= b;
      HeaderFields(op, b);
    }
  }

  // ---- damage ----

  /** Two records of the same length that differ at most in four neighbouring bytes, none of them in type or lengths. */
  ghost predicate Damaged(rec: Bytes, rec': Bytes, at: nat) {
    && at + 4 <= |rec| == |rec'| && HEADER + 4 <= |rec|
    && rec[..at] == rec'[..at] && rec[at + 4..] == rec'[at + 4..]
    && rec[6..15] == rec'[6..15]
    && rec != rec'
  }

  lemma Slice(b: Bytes, lo: nat, hi: nat, i: nat, j: nat)
    requires lo <= i <= j <= hi <= |b|
    ensures b[i..j] == b[lo..hi][i - lo..j - lo]
  {
    var part := b[lo..hi];
    forall k | 0 <= k < j - i ensures b[i..j][k] == part[i - lo..j - lo][k] {
      assert part[i - lo..j - lo][k] == part[i - lo + k] == b[i + k];
    }
  }

  lemma SameLengths(rec: Bytes, rec': Bytes)
    requires |rec| == |rec'| >= HEADER && rec[6..15] == rec'[6..15]
    ensures FieldsOf(rec).kind == FieldsOf(rec').kind
    ensures FieldsOf(rec).keyLength == FieldsOf(rec').keyLength
    ensures FieldsOf(rec).valueLength == FieldsOf(rec').valueLength
  {
    Slice(rec, 6, 15, 6, 7);
    Slice(rec', 6, 15, 6, 7);
    Slice(rec, 6, 15, 7, 11);
    Slice(rec', 6, 15, 7, 11);
    Slice(rec, 6, 15, 11, 15);
    Slice(rec', 6, 15, 11, 15);
  }

  lemma DamageUnchecked(op: Op, rec: Bytes, at: nat)
    requires Damaged(Encode(op), rec, at)
    ensures var n := |Body(op)|; n + 4 == |rec| && !Checked(rec[..n], rec[n..])
  {
    var good, n := Encode(op), |Body(op)|;
    assert good == Body(op) + Stored(Body(op));
    assert rec == rec[..n] + rec[n..];
    StoredChecks(Body(op));
    DamageSplit(good, rec, at);
    BurstBreaksChecksum(Body(op), Stored(Body(op)), rec[..n], rec[n..], good[..at], good[at..at + 4], rec[at..at + 4], good[at + 4..]);
  }

  lemma DamagedFrame(op: Op, rec: Bytes, at: nat)
    requires Fits(op) && Damaged(Encode(op), rec, at)
    ensures var f := FieldsOf(rec); GoodHeader(f) ==> BodyLength(f) == |Body(op)|
  {
    var good := Encode(op);
    assert Header(op) == good[..HEADER];
    HeaderFields(op, good);
    SameLengths(good, rec);
  }

  /** Such damage is always noticed. */
  lemma DamageDetected(op: Op, rec: Bytes, at: nat, rest: Bytes)
    requires Fits(op) && Damaged(Encode(op), rec, at)
    ensures Decode(rec + rest) == None
  {
    var n := |Body(op)|;
    DamagedFrame(op, rec, at);
    DamageUnchecked(op, rec, at);
    HeaderOfPrefix(rec, rest);
    assert (rec + rest)[..n] == rec[..n] && (rec + rest)[n..n + 4] == rec[n..];
  }

  lemma HeaderOfPrefix(rec: Bytes, rest: Bytes)
    requires |rec| >= HEADER
    ensures FieldsOf(rec + rest) == FieldsOf(rec)
  {
    assert forall i, j :: 0 <= i <= j <= |rec| ==> (rec + rest)[i..j] == rec[i..j];
  }

  lemma DamageSplit(rec: Bytes, rec': Bytes, at: nat)
    requires Damaged(rec, rec', at)
    ensures rec == rec[..at] + rec[at..at + 4] + rec[at + 4..]
    ensures rec' == rec[..at] + rec'[at..at + 4] + rec[at + 4..]
    ensures rec[at..at + 4] != rec'[at..at + 4]
  {
    assert rec == rec[..at] + rec[at..at + 4] + rec[at + 4..];
    assert rec' == rec'[..at] + rec'[at..at + 4] + rec'[at + 4..];
  }
}
