/** The check value that the catalogue of CRC algorithms gives for CRC-32: the checksum of "123456789". */
module CrcCheck {
  import opened Registers
  import opened Crc

  lemma TableBits(i: bv32, a: bv32, b: bv32, c: bv32, d: bv32, e: bv32, f: bv32, g: bv32, h: bv32)
    requires Bit(i) == a && Bit(a) == b && Bit(b) == c && Bit(c) == d && Bit(d) == e && Bit(e) == f && Bit(f) == g && Bit(g) == h
    ensures Table(i) == h
  {
    IterateEight(Bit, i);
  }

  /** One byte: the index it selects, the table entry, the next register. */
  lemma StepTo(c: bv32, b: bv8, i: bv32, t: bv32, next: bv32)
    requires Table(i) == t && Low(Xor(c, At0(b))) == i && Xor(t, Down(c)) == next
    ensures Step(c, b) == next
  {
  }

  lemma Byte1()
    ensures Step(0xFFFF_FFFF, 0x31) == 0x7C23_1048
  {
    TableBits(0x0000_00CE, 0x0000_0067, 0xEDB8_8313, 0x9B64_C2A9, 0xA00A_E274, 0x5005_713A, 0x2802_B89D, 0xF9B9_DF6E, 0x7CDC_EFB7);
    StepTo(0xFFFF_FFFF, 0x31, 0x0000_00CE, 0x7CDC_EFB7, 0x7C23_1048);
  }

  lemma Byte2()
    ensures Step(0x7C23_1048, 0x32) == 0xB0AC_BB32
  {
    TableBits(0x0000_007A, 0x0000_003D, 0xEDB8_833E, 0x76DC_419F, 0xD6D6_A3EF, 0x86D3_D2D7, 0xAED1_6A4B, 0xBAD0_3605, 0xB0D0_9822);
    StepTo(0x7C23_1048, 0x32, 0x0000_007A, 0xB0D0_9822, 0xB0AC_BB32);
  }

  lemma Byte3()
    ensures Step(0xB0AC_BB32, 0x33) == 0x77B7_9C2D
  {
    TableBits(0x0000_0001, 0xEDB8_8320, 0x76DC_4190, 0x3B6E_20C8, 0x1DB7_1064, 0x0EDB_8832, 0x076D_C419, 0xEE0E_612C, 0x7707_3096);
    StepTo(0xB0AC_BB32, 0x33, 0x0000_0001, 0x7707_3096, 0x77B7_9C2D);
  }

  lemma Byte4()
    ensures Step(0x77B7_9C2D, 0x34) == 0x641C_1F5C
  {
    TableBits(0x0000_0019, 0xEDB8_832C, 0x76DC_4196, 0x3B6E_20CB, 0xF00F_9345, 0x95BF_4A82, 0x4ADF_A541, 0xC8D7_5180, 0x646B_A8C0);
    StepTo(0x77B7_9C2D, 0x34, 0x0000_0019, 0x646B_A8C0, 0x641C_1F5C);
  }

  lemma Byte5()
    ensures Step(0x641C_1F5C, 0x35) == 0x340A_C5E3
  {
    TableBits(0x0000_0069, 0xEDB8_8314, 0x76DC_418A, 0x3B6E_20C5, 0xF00F_9342, 0x7807_C9A1, 0xD1BB_67F0, 0x68DD_B3F8, 0x346E_D9FC);
    StepTo(0x641C_1F5C, 0x35, 0x0000_0069, 0x346E_D9FC, 0x340A_C5E3);
  }

  lemma Byte6()
    ensures Step(0x340A_C5E3, 0x36) == 0xF68D_2C9E
  {
    TableBits(0x0000_00D5, 0xEDB8_834A, 0x76DC_41A5, 0xD6D6_A3F2, 0x6B6B_51F9, 0xD80D_2BDC, 0x6C06_95EE, 0x3603_4AF7, 0xF6B9_265B);
    StepTo(0x340A_C5E3, 0x36, 0x0000_00D5, 0xF6B9_265B, 0xF68D_2C9E);
  }

  lemma Byte7()
    ensures Step(0xF68D_2C9E, 0x37) == 0xAFFC_9660
  {
    TableBits(0x0000_00A9, 0xEDB8_8374, 0x76DC_41BA, 0x3B6E_20DD, 0xF00F_934E, 0x7807_C9A7, 0xD1BB_67F3, 0x8565_30D9, 0xAF0A_1B4C);
    StepTo(0xF68D_2C9E, 0x37, 0x0000_00A9, 0xAF0A_1B4C, 0xAFFC_9660);
  }

  lemma Byte8()
    ensures Step(0xAFFC_9660, 0x38) == 0x651F_2550
  {
    TableBits(0x0000_0058, 0x0000_002C, 0x0000_0016, 0x0000_000B, 0xEDB8_8325, 0x9B64_C2B2, 0x4DB2_6159, 0xCB61_B38C, 0x65B0_D9C6);
    StepTo(0xAFFC_9660, 0x38, 0x0000_0058, 0x65B0_D9C6, 0x651F_2550);
  }

  lemma Byte9()
    ensures Step(0x651F_2550, 0x39) == 0x340B_C6D9
  {
    TableBits(0x0000_0069, 0xEDB8_8314, 0x76DC_418A, 0x3B6E_20C5, 0xF00F_9342, 0x7807_C9A1, 0xD1BB_67F0, 0x68DD_B3F8, 0x346E_D9FC);
    StepTo(0x651F_2550, 0x39, 0x0000_0069, 0x346E_D9FC, 0x340B_C6D9);
  }

  /** The nine digits. */
  function Digits(): Bytes {
    [0x31, 0x32, 0x33, 0x34, 0x35, 0x36, 0x37, 0x38, 0x39]
  }

  /** A run of the register through the data. */
  lemma {:induction false} FoldAll(c: seq<bv32>, data: Bytes)
    requires |c| == |data| + 1 && forall i :: 0 <= i < |data| ==> Step(c[i], data[i]) == c[i + 1]
    ensures Raw(c[0], data) == c[|data|]
  {
    if data != [] {
      var rest, more := c[1..], data[1..];
      forall i | 0 <= i < |more| ensures Step(rest[i], more[i]) == rest[i + 1] {
        assert Step(c[i + 1], data[i + 1]) == c[i + 1 + 1];
      }
      FoldAll(rest, more);
      assert Step(c[0], data[0]) == c[0 + 1];
    }
  }

  function Run(): (c: seq<bv32>)
    ensures |c| == 10
  {
    [0xFFFF_FFFF, 0x7C23_1048, 0xB0AC_BB32, 0x77B7_9C2D, 0x641C_1F5C,
     0x340A_C5E3, 0xF68D_2C9E, 0xAFFC_9660, 0x651F_2550, 0x340B_C6D9]
  }

  lemma BytesStep(i: nat)
    requires i < 9
    ensures Step(Run()[i], Digits()[i]) == Run()[i + 1]
  {
    match i
    case 0 => Byte1();
    case 1 => Byte2();
    case 2 => Byte3();
    case 3 => Byte4();
    case 4 => Byte5();
    case 5 => Byte6();
    case 6 => Byte7();
    case 7 => Byte8();
    case _ => Byte9();
  }

  lemma CheckValue()
    ensures Update(0, Digits()) == 0xCBF4_3926
  {
    forall i | 0 <= i < 9 ensures Step(Run()[i], Digits()[i]) == Run()[i + 1] {
      BytesStep(i);
    }
    FoldAll(Run(), Digits());
    assert Flip(0) == 0xFFFF_FFFF && Flip(0x340B_C6D9) == 0xCBF4_3926;
  }
}
