/** The table-driven CRC-32 of the log (src/wal.cpp), against the shift register of section 3.2.9 of IEEE 802.3. */
module Crc {
  import opened Registers

  type Bytes = seq<bv8>

  const POLY: bv32 := 0xEDB8_8320

  function Bit(c: bv32): bv32 {
    if c & 1 == 1 then POLY ^ (c >> 1) else c >> 1
  }

  /** An entry of the table: eight bits of nothing but the index. */
  function Table(i: bv32): bv32 {
    Iterate(Bit, i, 8)
  }

  function Xor(a: bv32, b: bv32): bv32 { a ^ b }
  function Low(c: bv32): bv32 { c & 0xFF }
  function High(c: bv32): bv32 { c & 0xFFFF_FF00 }
  function Down(c: bv32): bv32 { c >> 8 }
  function Flip(c: bv32): bv32 { !c }

  /** The places of a byte in a word. */
  function At0(b: bv8): bv32 { b as bv32 }
  function At1(b: bv8): bv32 { (b as bv32) << 8 }
  function At2(b: bv8): bv32 { (b as bv32) << 16 }
  function At3(b: bv8): bv32 { (b as bv32) << 24 }

  /** One byte through the table. */
  function Step(c: bv32, b: bv8): bv32 {
    Xor(Table(Low(Xor(c, At0(b)))), Down(c))
  }

  function Raw(c: bv32, data: Bytes): bv32 {
    Fold(Step, c, data)
  }

  function Update(crc: bv32, data: Bytes): bv32 {
    Flip(Raw(Flip(crc), data))
  }

  // ---- the shift register of the standard ----

  /** The lowest bit of b meets the lowest bit of the register. */
  function Enter(c: bv32, b: bv32): bv32 {
    if (c & 1 == 1) != (b & 1 == 1) then POLY ^ (c >> 1) else c >> 1
  }

  function Half(b: bv32): bv32 {
    b >> 1
  }

  /** The eight bits of a byte, lowest first. */
  function Serial(c: bv32, b: bv8): bv32 {
    Feed(Enter, Half, c, At0(b), 8)
  }

  // ---- one bit ----

  lemma LowBit(a: bv32, b: bv32)
    ensures (a ^ b) & 1 == (a & 1) ^ (b & 1)
    ensures (a ^ b) >> 1 == (a >> 1) ^ (b >> 1)
    ensures a & 1 == 0 || a & 1 == 1
  {
  }

  lemma XorCancels(p: bv32, x: bv32, y: bv32)
    ensures (p ^ x) ^ (p ^ y) == x ^ y
    ensures p ^ (x ^ y) == (p ^ x) ^ y && p ^ (x ^ y) == x ^ (p ^ y)
  {
  }

  lemma BitLinear(a: bv32, b: bv32)
    ensures Bit(a ^ b) == Bit(a) ^ Bit(b)
  {
    LowBit(a, b);
    LowBit(b, a);
    XorCancels(POLY, a >> 1, b >> 1);
  }

  lemma TableIsEight()
    ensures forall c :: Table(c) == Eight(Bit, c)
  {
    forall c ensures Table(c) == Eight(Bit, c) {
      IterateEight(Bit, c);
    }
  }

  lemma TableLinear()
    ensures Linear(Table, Xor)
  {
    forall a, b ensures Bit(Xor(a, b)) == Xor(Bit(a), Bit(b)) {
      BitLinear(a, b);
    }
    TableIsEight();
    EightLinear(Bit, Table, Xor);
  }

  /** Only the polynomial sets the top bit, so a step can be undone. */
  lemma BitInjective(a: bv32, b: bv32)
    requires Bit(a) == Bit(b)
    ensures a == b
  {
  }

  lemma TableInjective()
    ensures Injective(Table)
  {
    forall a, b | Bit(a) == Bit(b) ensures a == b {
      BitInjective(a, b);
    }
    TableIsEight();
    EightInjective(Bit, Table);
  }

  lemma EnterIsBit(c: bv32, b: bv32)
    ensures Bit(c ^ b) == Enter(c, b) ^ (b >> 1)
  {
    LowBit(c, b);
    LowBit(b, c);
    XorCancels(POLY, c >> 1, b >> 1);
  }

  // ---- one byte ----

  /** Zero bits only move. */
  lemma ZerosMove(c: bv32)
    requires c & 0xFF == 0
    ensures Table(c) == c >> 8
  {
    IterateEight(Bit, c);
    EightZeros(c);
  }

  lemma EightZeros(c: bv32)
    requires c & 0xFF == 0
    ensures Bit(Bit(Bit(Bit(Bit(Bit(Bit(Bit(c)))))))) == c >> 8
  {
  }

  lemma SplitLow(x: bv32)
    ensures Xor(Low(x), High(x)) == x
  {
  }

  lemma HighOf(c: bv32, b: bv8)
    ensures ((c ^ (b as bv32)) & 0xFFFF_FF00) & 0xFF == 0
    ensures ((c ^ (b as bv32)) & 0xFFFF_FF00) >> 8 == c >> 8
  {
  }

  lemma HighPart(c: bv32, b: bv8)
    ensures Table(High(Xor(c, At0(b)))) == Down(c)
  {
    HighOf(c, b);
    ZerosMove(High(Xor(c, At0(b))));
  }

  /** The table step is eight bit steps on the register with the byte added. */
  lemma StepsByByte()
    ensures ByByte(Step, Table, Xor, At0)
  {
    TableLinear();
    forall x ensures Xor(Low(x), High(x)) == x {
      SplitLow(x);
    }
    forall c, d ensures Table(High(Xor(c, At0(d)))) == Down(c) {
      HighPart(c, d);
    }
    TableDriven(Step, Table, Xor, At0, Low, High, Down);
  }

  lemma ByteShiftsOut(b: bv8)
    ensures Eight(Half, At0(b)) == 0
  {
  }

  lemma XorZero(c: bv32)
    ensures Xor(c, 0) == c
  {
  }

  lemma ZeroNeutral()
    ensures Neutral(Xor, 0)
  {
    forall x ensures Xor(x, 0) == x {
      XorZero(x);
    }
  }

  lemma BitsEnter()
    ensures Enters(Bit, Xor, Enter, Half)
  {
    forall x, y ensures Bit(Xor(x, y)) == Xor(Enter(x, y), Half(y)) {
      EnterIsBit(x, y);
    }
  }

  lemma TableIsSerial(c: bv32, b: bv8)
    ensures Eight(Bit, Xor(c, At0(b))) == Serial(c, b)
  {
    BitsEnter();
    ZeroNeutral();
    ByteShiftsOut(b);
    FeedEight(Bit, Xor, Enter, Half, c, At0(b), 0);
  }

  /** The table-driven register is the shift register of the standard. */
  lemma TableIsShiftRegister(c: bv32, data: Bytes)
    ensures Raw(c, data) == Fold(Serial, c, data)
  {
    StepsByByte();
    forall a, d ensures Step(a, d) == Serial(a, d) {
      TableIsSerial(a, d);
      IterateEight(Bit, Xor(a, At0(d)));
      assert Step(a, d) == Table(Xor(a, At0(d)));
    }
    FoldSame(Step, Serial, c, data);
  }

  // ---- messages ----

  /** Feeding the parts one call after another is feeding the whole. */
  lemma UpdateConcat(crc: bv32, a: Bytes, b: Bytes)
    ensures Update(Update(crc, a), b) == Update(crc, a + b)
  {
    forall c ensures Flip(Flip(c)) == c {
      FlipFlip(c);
    }
    FoldResumes(Step, Flip, crc, a, b);
  }

  lemma FlipFlip(c: bv32)
    ensures Flip(Flip(c)) == c
  {
  }

  lemma XorSame(c: bv32, x: bv32, y: bv32)
    requires c ^ x == c ^ y || x ^ c == y ^ c
    ensures x == y
  {
  }

  lemma XorCancellable()
    ensures Cancels(Xor)
  {
    forall c, x, y | Xor(c, x) == Xor(c, y) || Xor(x, c) == Xor(y, c) ensures x == y {
      XorSame(c, x, y);
    }
  }

  lemma StepInjective()
    ensures InjectiveSteps(Step)
  {
    TableInjective();
    XorCancellable();
    StepsByByte();
    StepsInjective(Step, Table, Xor, At0);
  }

  /** Four bytes, lowest first. */
  function Word(w: Bytes): bv32
    requires |w| == 4
  {
    At0(w[0]) ^ At1(w[1]) ^ At2(w[2]) ^ At3(w[3])
  }

  lemma WordBytes(a: bv8, b: bv8, c: bv8, d: bv8)
    ensures var x := (a as bv32) ^ ((b as bv32) << 8) ^ ((c as bv32) << 16) ^ ((d as bv32) << 24);
      (x & 0xFF) as bv8 == a && ((x >> 8) & 0xFF) as bv8 == b && ((x >> 16) & 0xFF) as bv8 == c && ((x >> 24) & 0xFF) as bv8 == d
  {
  }

  lemma WordInjective(w: Bytes, v: Bytes)
    requires |w| == 4 && |v| == 4 && Word(w) == Word(v)
    ensures w == v
  {
    WordBytes(w[0], w[1], w[2], w[3]);
    WordBytes(v[0], v[1], v[2], v[3]);
  }

  lemma HighBytesMove(b: bv8)
    ensures Table(At1(b)) == At0(b) && Table(At2(b)) == At1(b) && Table(At3(b)) == At2(b)
  {
    ZerosMove(At1(b));
    ZerosMove(At2(b));
    ZerosMove(At3(b));
  }

  lemma BytesPlaced()
    ensures Placed(Table, At1, At0) && Placed(Table, At2, At1) && Placed(Table, At3, At2)
  {
    forall d ensures Table(At1(d)) == At0(d) && Table(At2(d)) == At1(d) && Table(At3(d)) == At2(d) {
      HighBytesMove(d);
    }
  }

  lemma XorWord(c: bv32, x0: bv32, x1: bv32, x2: bv32, x3: bv32)
    ensures (((c ^ x0) ^ x1) ^ x2) ^ x3 == c ^ (x0 ^ x1 ^ x2 ^ x3)
  {
  }

  lemma ShiftedWord(c: bv32, w: Bytes)
    requires |w| == 4
    ensures Shifted(Xor, At0, At1, At2, At3, c, w) == Xor(c, Word(w))
  {
    XorWord(c, At0(w[0]), At1(w[1]), At2(w[2]), At3(w[3]));
  }

  /** Four bytes go through the register as one word. */
  lemma RawWord(c: bv32, w: Bytes)
    requires |w| == 4
    ensures Raw(c, w) == Four(Table, Xor(c, Word(w)))
  {
    assert Raw(c, w) == Four(Table, Shifted(Xor, At0, At1, At2, At3, c, w)) by {
      TableLinear();
      BytesPlaced();
      StepsByByte();
      FoldWord(Step, Table, Xor, At0, At1, At2, At3, c, w);
    }
    ShiftedWord(c, w);
  }

  lemma SameSum(c: bv32, x: bv32, y: bv32)
    requires Four(Table, Xor(c, x)) == Four(Table, Xor(c, y))
    ensures x == y
  {
    TableInjective();
    XorCancellable();
    FourInjective(Table, Xor(c, x), Xor(c, y));
  }

  lemma SameWord(c: bv32, w: Bytes, v: Bytes)
    requires |w| == 4 && |v| == 4 && Raw(c, w) == Raw(c, v)
    ensures w == v
  {
    RawWord(c, w);
    RawWord(c, v);
    SameSum(c, Word(w), Word(v));
    WordInjective(w, v);
  }

  /** Any change within four neighbouring bytes changes the register. */
  lemma BurstChangesRaw(c: bv32, a: Bytes, w: Bytes, v: Bytes, z: Bytes)
    requires |w| == 4 && |v| == 4 && w != v
    ensures Raw(c, a + w + z) != Raw(c, a + v + z)
  {
    FoldConcat(Step, c, a + w, z);
    FoldConcat(Step, c, a + v, z);
    FoldConcat(Step, c, a, w);
    FoldConcat(Step, c, a, v);
    StepInjective();
    if Raw(c, a + w + z) == Raw(c, a + v + z) {
      FoldInjective(Step, Raw(c, a + w), Raw(c, a + v), z);
      SameWord(Raw(c, a), w, v);
    }
  }

  const ONES: bv32 := 0xFFFF_FFFF

  lemma XorNot(c: bv32)
    ensures c ^ !c == ONES
  {
  }

  lemma Complement(c: bv32, w: bv32)
    ensures Flip(c) == w <==> Xor(c, w) == ONES
  {
    XorNot(c);
    XorCancellable();
    assert Xor(c, Flip(c)) == ONES;
  }

  /** A stored checksum is right exactly when message and checksum together leave the register at one fixed value. */
  lemma ChecksumIsResidue(body: Bytes, w: Bytes)
    requires |w| == 4
    ensures Update(0, body) == Word(w) <==> Raw(ONES, body + w) == Four(Table, ONES)
  {
    var c := Raw(ONES, body);
    Complement(c, Word(w));
    FoldConcat(Step, ONES, body, w);
    RawWord(c, w);
    TableInjective();
    FourInjective(Table, Xor(c, Word(w)), ONES);
  }

  // ---- the loops ----

  function EntryAt(i: nat): bv32
    requires i < 256
  {
    Table(i as bv32)
  }

  method TableEntry(i: nat) returns (c: bv32)
    requires i < 256
    ensures c == EntryAt(i)
  {
    ghost var x := i as bv32;
    c := i as bv32;
    for k := 0 to 8
      invariant Iterate(Bit, c, 8 - k) == Iterate(Bit, x, 8)
    {
      c := if c & 1 == 1 then POLY ^ (c >> 1) else c >> 1;
    }
  }

  /** The first n entries are right. */
  predicate Entries(t: seq<bv32>, n: nat)
    requires n <= |t| && n <= 256
    decreases n, t
  {
    n == 0 || (t[n - 1] == EntryAt(n - 1) && Entries(t, n - 1))
  }

  lemma {:induction false} EntriesAt(t: seq<bv32>, n: nat, i: nat)
    requires n <= |t| && i < n <= 256 && Entries(t, n)
    ensures t[i] == EntryAt(i)
  {
    if i < n - 1 { EntriesAt(t, n - 1, i); }
  }

  lemma {:induction false} EntriesSame(t: seq<bv32>, u: seq<bv32>, n: nat)
    requires n <= |t| && n <= |u| && n <= 256 && t[..n] == u[..n] && Entries(t, n)
    ensures Entries(u, n)
  {
    if n > 0 {
      assert t[n - 1] == t[..n][n - 1] == u[n - 1];
      assert t[..n - 1] == t[..n][..n - 1] == u[..n - 1];
      EntriesSame(t, u, n - 1);
    }
  }

  ghost predicate TableFilled(table: array<bv32>)
    reads table
  {
    table.Length == 256 && Entries(table[..], 256)
  }

  method FillTable(table: array<bv32>)
    requires table.Length == 256
    modifies table
    ensures TableFilled(table)
  {
    for i := 0 to 256
      invariant Entries(table[..], i)
    {
      ghost var before := table[..];
      table[i] := TableEntry(i);
      EntriesSame(before, table[..], i);
    }
  }

  method Crc32Update(crc: bv32, data: Bytes) returns (r: bv32)
    ensures r == Update(crc, data)
  {
    var table := new bv32[256];
    FillTable(table);
    var c := Flip(crc);
    for i := 0 to |data|
      invariant TableFilled(table)
      invariant Fold(Step, c, data[i..]) == Raw(Flip(crc), data)
    {
      FoldNext(Step, c, data, i);
      c := LookUp(table, c, data[i]);
    }
    r := Flip(c);
  }

  method LookUp(table: array<bv32>, c: bv32, b: bv8) returns (r: bv32)
    requires TableFilled(table)
    ensures r == Step(c, b)
  {
    LowIsByte(Xor(c, At0(b)));
    var i := Index(Low(Xor(c, At0(b))));
    EntriesAt(table[..], 256, i);
    r := Xor(table[i], Down(c));
  }

  lemma LowIsByte(y: bv32)
    ensures Low(y) < 256
  {
  }

  function Index(x: bv32): (i: nat)
    requires x < 256
    ensures i < 256 && i as bv32 == x
  {
    x as int
  }
}
