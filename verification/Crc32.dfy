/** The table-driven CRC-32 of packet.cpp: polynomial 0x04C11DB7, most significant
    bit first, initial value and final exclusive-or 0xFFFFFFFF. */
module Crc32 {
  import opened Base

  const POLYNOMIAL: bv32 := 0x04C1_1DB7
  const ONES: bv32 := 0xFFFF_FFFF

  // ---------- bytes as bits ----------

  /** One more bit at the low end. */
  function Append(x: bv32, bit: bool): bv32 { (x << 1) | (if bit then 1 else 0) }

  /** The k low bits of b. */
  function Widen(b: nat, k: nat): bv32 {
    if k == 0 then 0 else Append(Widen(b / 2, k - 1), b % 2 == 1)
  }

  predicate LowBitSet(v: bv32) { v & 1 != 0 }

  function Halve(v: bv32): bv32 { v >> 1 }

  function Narrow(v: bv32, k: nat): nat {
    if k == 0 then 0 else 2 * Narrow(Halve(v), k - 1) + (if LowBitSet(v) then 1 else 0)
  }

  function Two(k: nat): nat { if k == 0 then 1 else 2 * Two(k - 1) }

  /** Ones in the k low places. */
  function Mask(k: nat): bv32 { if k == 0 then 0 else Append(Mask(k - 1), true) }

  function And(x: bv32, m: bv32): bv32 { x & m }

  lemma MaskShift(x: bv32, m: bv32, bit: bool)
    requires And(x, m) == x
    ensures And(Append(x, bit), Append(m, true)) == Append(x, bit)
  {
  }

  lemma ZeroFits()
    ensures And(0, 0) == 0
  {
  }

  lemma {:induction false} WidenFits(b: nat, k: nat)
    ensures And(Widen(b, k), Mask(k)) == Widen(b, k)
  {
    hide Append, And;
    if k == 0 {
      ZeroFits();
    } else {
      WidenFits(b / 2, k - 1);
      MaskShift(Widen(b / 2, k - 1), Mask(k - 1), b % 2 == 1);
    }
  }

  lemma MaskValues()
    ensures Mask(0) == 0 && Mask(1) == 1 && Mask(2) == 3 && Mask(3) == 7 && Mask(4) == 0xF
    ensures Mask(5) == 0x1F && Mask(6) == 0x3F && Mask(7) == 0x7F && Mask(8) == 0xFF
  {
  }

  predicate Short(x: bv32) { x <= 0x7F }

  lemma MaskedIsShort(x: bv32, m: bv32)
    requires And(x, m) == x && Short(m)
    ensures Short(x)
  {
  }

  lemma ShortMask(k: nat)
    requires k <= 7
    ensures Short(Mask(k))
  {
    MaskValues();
    assert k == 0 || k == 1 || k == 2 || k == 3 || k == 4 || k == 5 || k == 6 || k == 7;
  }

  lemma AppendInjective(x: bv32, p: bool, y: bv32, q: bool)
    requires Short(x) && Short(y) && Append(x, p) == Append(y, q)
    ensures x == y && p == q
  {
  }

  lemma {:induction false} WidenInjective(a: nat, b: nat, k: nat)
    requires k <= 8 && a < Two(k) && b < Two(k) && Widen(a, k) == Widen(b, k)
    ensures a == b
  {
    hide Append, And, Short, Mask;
    if k > 0 {
      WidenFits(a / 2, k - 1);
      WidenFits(b / 2, k - 1);
      ShortMask(k - 1);
      MaskedIsShort(Widen(a / 2, k - 1), Mask(k - 1));
      MaskedIsShort(Widen(b / 2, k - 1), Mask(k - 1));
      AppendInjective(Widen(a / 2, k - 1), a % 2 == 1, Widen(b / 2, k - 1), b % 2 == 1);
      WidenInjective(a / 2, b / 2, k - 1);
    }
  }

  lemma {:induction false} NarrowFits(v: bv32, k: nat)
    ensures Narrow(v, k) < Two(k)
  {
    if k > 0 {
      NarrowFits(Halve(v), k - 1);
    }
  }

  lemma SplitOdd(v: bv32, m: bv32)
    requires LowBitSet(v)
    ensures Append(And(Halve(v), m), true) == And(v, Append(m, true))
  {
  }

  lemma SplitEven(v: bv32, m: bv32)
    requires !LowBitSet(v)
    ensures Append(And(Halve(v), m), false) == And(v, Append(m, true))
  {
  }

  lemma SplitLow(v: bv32, m: bv32)
    ensures Append(And(Halve(v), m), LowBitSet(v)) == And(v, Append(m, true))
  {
    hide Append, And, Halve, LowBitSet;
    if LowBitSet(v) {
      SplitOdd(v, m);
    } else {
      SplitEven(v, m);
    }
  }

  lemma AndZero(v: bv32)
    ensures And(v, 0) == 0
  {
  }

  lemma {:induction false} WidenNarrow(v: bv32, k: nat)
    ensures Widen(Narrow(v, k), k) == And(v, Mask(k))
    decreases k
  {
    hide Append, And, Halve, LowBitSet;
    if k == 0 {
      AndZero(v);
    } else {
      WidenNarrow(Halve(v), k - 1);
      SplitLow(v, Mask(k - 1));
      var n := Narrow(v, k);
      assert n / 2 == Narrow(Halve(v), k - 1) && (n % 2 == 1 <==> LowBitSet(v));
    }
  }

  function Bits(b: byte): bv32 { Widen(b, 8) }

  function LowByte(v: bv32): (b: byte)
  {
    NarrowFits(v, 8);
    assert Two(8) == 256 by { assert Two(4) == 16; }
    Narrow(v, 8)
  }

  lemma BitsOfLowByte(v: bv32)
    ensures Bits(LowByte(v)) == And(v, 0xFF)
  {
    hide And, Append;
    WidenNarrow(v, 8);
    MaskValues();
  }

  lemma BitsAreSmall(b: byte)
    ensures And(Bits(b), 0xFF) == Bits(b)
  {
    hide And, Append;
    WidenFits(b, 8);
    MaskValues();
  }

  lemma BitsInjective(a: byte, b: byte)
    requires Bits(a) == Bits(b)
    ensures a == b
  {
    assert Two(8) == 256 by { assert Two(4) == 16; }
    WidenInjective(a, b, 8);
  }

  // ---------- polynomial division, one bit at a time ----------

  /** One step of the division: the bit shifted out subtracts the polynomial. */
  function BitStep(r: bv32): bv32 {
    if r & 0x8000_0000 != 0 then (r << 1) ^ POLYNOMIAL else r << 1
  }

  function ByteStep(r: bv32): bv32 {
    BitStep(BitStep(BitStep(BitStep(BitStep(BitStep(BitStep(BitStep(r))))))))
  }

  /** Addition of polynomials over two elements. */
  function Add(x: bv32, y: bv32): bv32 { x ^ y }

  // A byte one, two or three places up.

  function Up1(x: bv32): bv32 { x << 8 }

  function Up2(x: bv32): bv32 { x << 16 }

  function Up3(x: bv32): bv32 { x << 24 }

  /** A byte in the top place. */
  function Top(b: byte): bv32 { Up3(Bits(b)) }

  /** The remainder after one more byte of the message. */
  function Next(r: bv32, b: byte): bv32 {
    ByteStep(Add(r, Top(b)))
  }

  function Remainder(r: bv32, s: seq<byte>): bv32
    decreases |s|
  {
    if s == [] then r else Remainder(Next(r, s[0]), s[1..])
  }

  function Crc(s: seq<byte>, previous: bv32 := 0): bv32 {
    Add(Remainder(Add(previous, ONES), s), ONES)
  }

  // ---------- linearity ----------

  lemma XorCommutes(x: bv32, y: bv32)
    ensures x ^ y == y ^ x
  {
  }

  lemma BothTop(x: bv32, y: bv32)
    requires x & 0x8000_0000 != 0 && y & 0x8000_0000 != 0
    ensures BitStep(x ^ y) == BitStep(x) ^ BitStep(y)
  {
  }

  lemma OneTop(x: bv32, y: bv32)
    requires x & 0x8000_0000 != 0 && y & 0x8000_0000 == 0
    ensures BitStep(x ^ y) == BitStep(x) ^ BitStep(y)
  {
  }

  lemma NoTop(x: bv32, y: bv32)
    requires x & 0x8000_0000 == 0 && y & 0x8000_0000 == 0
    ensures BitStep(x ^ y) == BitStep(x) ^ BitStep(y)
  {
  }

  lemma BitStepLinear(x: bv32, y: bv32)
    ensures BitStep(x ^ y) == BitStep(x) ^ BitStep(y)
  {
    if x & 0x8000_0000 != 0 {
      if y & 0x8000_0000 != 0 {
        BothTop(x, y);
      } else {
        OneTop(x, y);
      }
    } else if y & 0x8000_0000 != 0 {
      OneTop(y, x);
      XorCommutes(x, y);
      XorCommutes(BitStep(x), BitStep(y));
    } else {
      NoTop(x, y);
    }
  }

  lemma BitStepAdds(x: bv32, y: bv32)
    ensures BitStep(Add(x, y)) == Add(BitStep(x), BitStep(y))
  {
    hide BitStep;
    BitStepLinear(x, y);
  }

  lemma ByteStepAdds(x: bv32, y: bv32)
    ensures ByteStep(Add(x, y)) == Add(ByteStep(x), ByteStep(y))
  {
    hide BitStep, Add;
    BitStepAdds(x, y);
    var x1, y1 := BitStep(x), BitStep(y);
    BitStepAdds(x1, y1);
    var x2, y2 := BitStep(x1), BitStep(y1);
    BitStepAdds(x2, y2);
    var x3, y3 := BitStep(x2), BitStep(y2);
    BitStepAdds(x3, y3);
    var x4, y4 := BitStep(x3), BitStep(y3);
    BitStepAdds(x4, y4);
    var x5, y5 := BitStep(x4), BitStep(y4);
    BitStepAdds(x5, y5);
    var x6, y6 := BitStep(x5), BitStep(y5);
    BitStepAdds(x6, y6);
    BitStepAdds(BitStep(x6), BitStep(y6));
  }

  /** No nonzero remainder is divided away: the polynomial has a constant term. */
  lemma BitStepKernel(x: bv32)
    requires BitStep(x) == 0
    ensures x == 0
  {
  }

  lemma AddZero(x: bv32, y: bv32)
    ensures Add(x, y) == 0 <==> x == y
  {
    AddBack(x, y);
  }

  lemma AddBack(x: bv32, y: bv32)
    ensures Add(Add(x, y), y) == x && Add(0, y) == y && Add(y, y) == 0
  {
  }

  /** A remainder whose top byte is empty is only shifted. */
  lemma ByteStepLow(y: bv32)
    requires y & 0xFF00_0000 == 0
    ensures ByteStep(y) == y << 8
  {
  }

  // ---------- the table ----------

  // The table of packet.cpp, eight entries a row.

  function Quarter0(row: nat): (r: seq<bv32>)
    requires row < 8
    ensures |r| == 8
  {
    if row == 0 then [0x0000_0000, 0x04C1_1DB7, 0x0982_3B6E, 0x0D43_26D9, 0x1304_76DC, 0x17C5_6B6B, 0x1A86_4DB2, 0x1E47_5005]
    else if row == 1 then [0x2608_EDB8, 0x22C9_F00F, 0x2F8A_D6D6, 0x2B4B_CB61, 0x350C_9B64, 0x31CD_86D3, 0x3C8E_A00A, 0x384F_BDBD]
    else if row == 2 then [0x4C11_DB70, 0x48D0_C6C7, 0x4593_E01E, 0x4152_FDA9, 0x5F15_ADAC, 0x5BD4_B01B, 0x5697_96C2, 0x5256_8B75]
    else if row == 3 then [0x6A19_36C8, 0x6ED8_2B7F, 0x639B_0DA6, 0x675A_1011, 0x791D_4014, 0x7DDC_5DA3, 0x709F_7B7A, 0x745E_66CD]
    else if row == 4 then [0x9823_B6E0, 0x9CE2_AB57, 0x91A1_8D8E, 0x9560_9039, 0x8B27_C03C, 0x8FE6_DD8B, 0x82A5_FB52, 0x8664_E6E5]
    else if row == 5 then [0xBE2B_5B58, 0xBAEA_46EF, 0xB7A9_6036, 0xB368_7D81, 0xAD2F_2D84, 0xA9EE_3033, 0xA4AD_16EA, 0xA06C_0B5D]
    else if row == 6 then [0xD432_6D90, 0xD0F3_7027, 0xDDB0_56FE, 0xD971_4B49, 0xC736_1B4C, 0xC3F7_06FB, 0xCEB4_2022, 0xCA75_3D95]
    else [0xF23A_8028, 0xF6FB_9D9F, 0xFBB8_BB46, 0xFF79_A6F1, 0xE13E_F6F4, 0xE5FF_EB43, 0xE8BC_CD9A, 0xEC7D_D02D]
  }

  function Quarter1(row: nat): (r: seq<bv32>)
    requires row < 8
    ensures |r| == 8
  {
    if row == 0 then [0x3486_7077, 0x3047_6DC0, 0x3D04_4B19, 0x39C5_56AE, 0x2782_06AB, 0x2343_1B1C, 0x2E00_3DC5, 0x2AC1_2072]
    else if row == 1 then [0x128E_9DCF, 0x164F_8078, 0x1B0C_A6A1, 0x1FCD_BB16, 0x018A_EB13, 0x054B_F6A4, 0x0808_D07D, 0x0CC9_CDCA]
    else if row == 2 then [0x7897_AB07, 0x7C56_B6B0, 0x7115_9069, 0x75D4_8DDE, 0x6B93_DDDB, 0x6F52_C06C, 0x6211_E6B5, 0x66D0_FB02]
    else if row == 3 then [0x5E9F_46BF, 0x5A5E_5B08, 0x571D_7DD1, 0x53DC_6066, 0x4D9B_3063, 0x495A_2DD4, 0x4419_0B0D, 0x40D8_16BA]
    else if row == 4 then [0xACA5_C697, 0xA864_DB20, 0xA527_FDF9, 0xA1E6_E04E, 0xBFA1_B04B, 0xBB60_ADFC, 0xB623_8B25, 0xB2E2_9692]
    else if row == 5 then [0x8AAD_2B2F, 0x8E6C_3698, 0x832F_1041, 0x87EE_0DF6, 0x99A9_5DF3, 0x9D68_4044, 0x902B_669D, 0x94EA_7B2A]
    else if row == 6 then [0xE0B4_1DE7, 0xE475_0050, 0xE936_2689, 0xEDF7_3B3E, 0xF3B0_6B3B, 0xF771_768C, 0xFA32_5055, 0xFEF3_4DE2]
    else [0xC6BC_F05F, 0xC27D_EDE8, 0xCF3E_CB31, 0xCBFF_D686, 0xD5B8_8683, 0xD179_9B34, 0xDC3A_BDED, 0xD8FB_A05A]
  }

  function Quarter2(row: nat): (r: seq<bv32>)
    requires row < 8
    ensures |r| == 8
  {
    if row == 0 then [0x690C_E0EE, 0x6DCD_FD59, 0x608E_DB80, 0x644F_C637, 0x7A08_9632, 0x7EC9_8B85, 0x738A_AD5C, 0x774B_B0EB]
    else if row == 1 then [0x4F04_0D56, 0x4BC5_10E1, 0x4686_3638, 0x4247_2B8F, 0x5C00_7B8A, 0x58C1_663D, 0x5582_40E4, 0x5143_5D53]
    else if row == 2 then [0x251D_3B9E, 0x21DC_2629, 0x2C9F_00F0, 0x285E_1D47, 0x3619_4D42, 0x32D8_50F5, 0x3F9B_762C, 0x3B5A_6B9B]
    else if row == 3 then [0x0315_D626, 0x07D4_CB91, 0x0A97_ED48, 0x0E56_F0FF, 0x1011_A0FA, 0x14D0_BD4D, 0x1993_9B94, 0x1D52_8623]
    else if row == 4 then [0xF12F_560E, 0xF5EE_4BB9, 0xF8AD_6D60, 0xFC6C_70D7, 0xE22B_20D2, 0xE6EA_3D65, 0xEBA9_1BBC, 0xEF68_060B]
    else if row == 5 then [0xD727_BBB6, 0xD3E6_A601, 0xDEA5_80D8, 0xDA64_9D6F, 0xC423_CD6A, 0xC0E2_D0DD, 0xCDA1_F604, 0xC960_EBB3]
    else if row == 6 then [0xBD3E_8D7E, 0xB9FF_90C9, 0xB4BC_B610, 0xB07D_ABA7, 0xAE3A_FBA2, 0xAAFB_E615, 0xA7B8_C0CC, 0xA379_DD7B]
    else [0x9B36_60C6, 0x9FF7_7D71, 0x92B4_5BA8, 0x9675_461F, 0x8832_161A, 0x8CF3_0BAD, 0x81B0_2D74, 0x8571_30C3]
  }

  function Quarter3(row: nat): (r: seq<bv32>)
    requires row < 8
    ensures |r| == 8
  {
    if row == 0 then [0x5D8A_9099, 0x594B_8D2E, 0x5408_ABF7, 0x50C9_B640, 0x4E8E_E645, 0x4A4F_FBF2, 0x470C_DD2B, 0x43CD_C09C]
    else if row == 1 then [0x7B82_7D21, 0x7F43_6096, 0x7200_464F, 0x76C1_5BF8, 0x6886_0BFD, 0x6C47_164A, 0x6104_3093, 0x65C5_2D24]
    else if row == 2 then [0x119B_4BE9, 0x155A_565E, 0x1819_7087, 0x1CD8_6D30, 0x029F_3D35, 0x065E_2082, 0x0B1D_065B, 0x0FDC_1BEC]
    else if row == 3 then [0x3793_A651, 0x3352_BBE6, 0x3E11_9D3F, 0x3AD0_8088, 0x2497_D08D, 0x2056_CD3A, 0x2D15_EBE3, 0x29D4_F654]
    else if row == 4 then [0xC5A9_2679, 0xC168_3BCE, 0xCC2B_1D17, 0xC8EA_00A0, 0xD6AD_50A5, 0xD26C_4D12, 0xDF2F_6BCB, 0xDBEE_767C]
    else if row == 5 then [0xE3A1_CBC1, 0xE760_D676, 0xEA23_F0AF, 0xEEE2_ED18, 0xF0A5_BD1D, 0xF464_A0AA, 0xF927_8673, 0xFDE6_9BC4]
    else if row == 6 then [0x89B8_FD09, 0x8D79_E0BE, 0x803A_C667, 0x84FB_DBD0, 0x9ABC_8BD5, 0x9E7D_9662, 0x933E_B0BB, 0x97FF_AD0C]
    else [0xAFB0_10B1, 0xAB71_0D06, 0xA632_2BDF, 0xA2F3_3668, 0xBCB4_666D, 0xB875_7BDA, 0xB536_5D03, 0xB1F7_40B4]
  }

  function Row(row: nat): (r: seq<bv32>)
    requires row < 32
    ensures |r| == 8
  {
    if row < 8 then Quarter0(row)
    else if row < 16 then Quarter1(row - 8)
    else if row < 24 then Quarter2(row - 16)
    else Quarter3(row - 24)
  }

  function Entry(i: nat): bv32
    requires i < 256
  {
    Row(i / 8)[i % 8]
  }

  /** Entry 2i comes from entry i by one step, entry 2i + 1 by adding the polynomial. */
  predicate Doubled(row: nat)
    requires row < 32
  {
    var half := Row(row / 2);
    var h := row % 2 * 4;
    var r := Row(row);
    && r[0] == BitStep(half[h]) && r[1] == Add(r[0], POLYNOMIAL)
    && r[2] == BitStep(half[h + 1]) && r[3] == Add(r[2], POLYNOMIAL)
    && r[4] == BitStep(half[h + 2]) && r[5] == Add(r[4], POLYNOMIAL)
    && r[6] == BitStep(half[h + 3]) && r[7] == Add(r[6], POLYNOMIAL)
  }

  lemma RowsDoubled0()
    ensures Doubled(0) && Doubled(1)
  {
  }

  lemma RowsDoubled1()
    ensures Doubled(2) && Doubled(3)
  {
  }

  lemma RowsDoubled2()
    ensures Doubled(4) && Doubled(5)
  {
  }

  lemma RowsDoubled3()
    ensures Doubled(6) && Doubled(7)
  {
  }

  lemma RowsDoubled4()
    ensures Doubled(8) && Doubled(9)
  {
  }

  lemma RowsDoubled5()
    ensures Doubled(10) && Doubled(11)
  {
  }

  lemma RowsDoubled6()
    ensures Doubled(12) && Doubled(13)
  {
  }

  lemma RowsDoubled7()
    ensures Doubled(14) && Doubled(15)
  {
  }

  lemma RowsDoubled8()
    ensures Doubled(16) && Doubled(17)
  {
  }

  lemma RowsDoubled9()
    ensures Doubled(18) && Doubled(19)
  {
  }

  lemma RowsDoubled10()
    ensures Doubled(20) && Doubled(21)
  {
  }

  lemma RowsDoubled11()
    ensures Doubled(22) && Doubled(23)
  {
  }

  lemma RowsDoubled12()
    ensures Doubled(24) && Doubled(25)
  {
  }

  lemma RowsDoubled13()
    ensures Doubled(26) && Doubled(27)
  {
  }

  lemma RowsDoubled14()
    ensures Doubled(28) && Doubled(29)
  {
  }

  lemma RowsDoubled15()
    ensures Doubled(30) && Doubled(31)
  {
  }

  lemma HalfDoubled0(row: nat)
    requires 0 <= row < 16
    ensures Doubled(row)
  {
    hide Doubled;
    if row < 2 {
      RowsDoubled0();
    } else if row < 4 {
      RowsDoubled1();
    } else if row < 6 {
      RowsDoubled2();
    } else if row < 8 {
      RowsDoubled3();
    } else if row < 10 {
      RowsDoubled4();
    } else if row < 12 {
      RowsDoubled5();
    } else if row < 14 {
      RowsDoubled6();
    } else if row < 16 {
      RowsDoubled7();
    }
  }

  lemma HalfDoubled1(row: nat)
    requires 16 <= row < 32
    ensures Doubled(row)
  {
    hide Doubled;
    if row < 18 {
      RowsDoubled8();
    } else if row < 20 {
      RowsDoubled9();
    } else if row < 22 {
      RowsDoubled10();
    } else if row < 24 {
      RowsDoubled11();
    } else if row < 26 {
      RowsDoubled12();
    } else if row < 28 {
      RowsDoubled13();
    } else if row < 30 {
      RowsDoubled14();
    } else if row < 32 {
      RowsDoubled15();
    }
  }

  lemma EveryRowDoubled(row: nat)
    requires row < 32
    ensures Doubled(row)
  {
    hide Doubled;
    if row < 16 {
      HalfDoubled0(row);
    } else {
      HalfDoubled1(row);
    }
  }

  lemma EntryDoubles(i: nat)
    requires i < 128
    ensures Entry(2 * i) == BitStep(Entry(i)) && Entry(2 * i + 1) == Add(Entry(2 * i), POLYNOMIAL)
  {
    hide BitStep, Add, Row;
    var row := i / 4;
    EveryRowDoubled(row);
    assert 2 * i / 8 == row && 2 * i % 8 == 2 * (i % 4);
    assert (2 * i + 1) / 8 == row && (2 * i + 1) % 8 == 2 * (i % 4) + 1;
    assert i / 8 == row / 2 && i % 8 == row % 2 * 4 + i % 4;
    assert i % 4 == 0 || i % 4 == 1 || i % 4 == 2 || i % 4 == 3;
  }

  lemma {:induction false} WidenShort(b: nat, k: nat)
    requires b < Two(k)
    ensures Widen(b, k + 1) == Widen(b, k)
  {
    hide Append;
    if k == 0 {
      AppendNothing();
    } else {
      WidenShort(b / 2, k - 1);
    }
  }

  lemma AppendNothing()
    ensures Append(0, false) == 0
  {
  }

  lemma TopAppended(x: bv32)
    requires Short(x)
    ensures Append(x, false) << 24 == BitStep(x << 24)
    ensures Append(x, true) << 24 == Add(BitStep(x << 24), 0x0100_0000)
  {
  }

  lemma ByteStepShifts(y: bv32)
    ensures ByteStep(BitStep(y)) == BitStep(ByteStep(y))
  {
    hide BitStep;
  }

  lemma ByteStepOne()
    ensures ByteStep(0x0100_0000) == POLYNOMIAL
  {
  }

  lemma TopDoubles(i: nat)
    requires i < 128
    ensures Top(2 * i) == BitStep(Top(i)) && Top(2 * i + 1) == Add(BitStep(Top(i)), 0x0100_0000)
  {
    hide BitStep, Append, Add, Short, And;
    var x := Widen(i, 7);
    assert Two(7) == 128 by { assert Two(4) == 16; }
    WidenShort(i, 7);
    WidenFits(i, 7);
    ShortMask(7);
    MaskedIsShort(x, Mask(7));
    TopAppended(x);
    assert 2 * i / 2 == i && (2 * i + 1) / 2 == i;
    assert Widen(2 * i, 8) == Append(x, false);
    assert Widen(2 * i + 1, 8) == Append(x, true);
  }

  /** Every entry of the table is eight steps of the division. */
  lemma {:induction false} TableIsDivision(i: nat)
    requires i < 256
    ensures Entry(i) == ByteStep(Top(i))
  {
    hide BitStep, ByteStep, Add, Top, Entry;
    if i == 0 {
      EntryZero();
    } else {
      var h := i / 2;
      TableIsDivision(h);
      EntryDoubles(h);
      TopDoubles(h);
      ByteStepShifts(Top(h));
      ByteStepAdds(BitStep(Top(h)), 0x0100_0000);
      ByteStepOne();
      assert i == 2 * h || i == 2 * h + 1;
    }
  }

  lemma EntryZero()
    ensures Entry(0) == ByteStep(Top(0))
  {
    assert Bits(0) == 0;
  }

  // ---------- the code ----------

  /** `*p ^ ((crc >> 24) & 0xff)`. */
  function Index(crc: bv32, b: byte): byte {
    LowByte(Add(Bits(b), And(crc >> 24, 0xFF)))
  }

  function TableStep(crc: bv32, b: byte): bv32 {
    Add(Entry(Index(crc, b)), crc << 8)
  }

  lemma SplitTop(crc: bv32, x: bv32, i: bv32)
    requires And(x, 0xFF) == x && i == And(Add(x, And(crc >> 24, 0xFF)), 0xFF)
    ensures Add(crc, x << 24) == Add(i << 24, crc & 0x00FF_FFFF)
    ensures (crc & 0x00FF_FFFF) << 8 == crc << 8 && (crc & 0x00FF_FFFF) & 0xFF00_0000 == 0
  {
  }

  /** The byte-wise step of the code is eight bit-wise steps of the division. */
  lemma TableStepIsDivision(crc: bv32, b: byte)
    ensures TableStep(crc, b) == Next(crc, b)
  {
    hide ByteStep, Add, And, Entry, LowByte, Bits;
    var i := Index(crc, b);
    BitsOfLowByte(Add(Bits(b), And(crc >> 24, 0xFF)));
    BitsAreSmall(b);
    SplitTop(crc, Bits(b), Bits(i));
    TableIsDivision(i);
    ByteStepAdds(Top(i), crc & 0x00FF_FFFF);
    ByteStepLow(crc & 0x00FF_FFFF);
  }

  /** `Packet::crc32`. */
  method ComputeCrc32(data: seq<byte>, previousCrc32: bv32 := 0) returns (r: bv32)
    ensures r == Crc(data, previousCrc32)
  {
    hide Add, TableStep, Next;
    var crc := Add(previousCrc32, ONES);
    var p := 0;
    while p < |data|
      invariant 0 <= p <= |data|
      invariant Remainder(crc, data[p..]) == Remainder(Add(previousCrc32, ONES), data)
    {
      TableStepIsDivision(crc, data[p]);
      crc := TableStep(crc, data[p]);
      p := p + 1;
    }
    r := Add(crc, ONES);
  }

  // ---------- chunks ----------

  lemma {:induction false} RemainderConcat(r: bv32, s: seq<byte>, t: seq<byte>)
    ensures Remainder(r, s + t) == Remainder(Remainder(r, s), t)
    decreases |s|
  {
    hide Next;
    if s == [] {
      assert s + t == t;
    } else {
      assert (s + t)[1..] == s[1..] + t;
      RemainderConcat(Next(r, s[0]), s[1..], t);
    }
  }

  lemma AddTwice(x: bv32, y: bv32)
    ensures Add(Add(x, y), y) == x
  {
  }

  /** Hashing a second chunk with the first one's CRC gives the CRC of both. */
  lemma CrcOfChunks(s: seq<byte>, t: seq<byte>, previous: bv32)
    ensures Crc(s + t, previous) == Crc(t, Crc(s, previous))
  {
    hide Add;
    RemainderConcat(Add(previous, ONES), s, t);
    AddTwice(Remainder(Add(previous, ONES), s), ONES);
  }

  // ---------- damage ----------

  lemma AddCancels(x: bv32, y: bv32, z: bv32)
    ensures Add(x, z) == Add(y, z) <==> x == y
    ensures Add(z, x) == Add(z, y) <==> x == y
  {
  }

  lemma LowPlaces(x: bv32)
    requires And(x, 0xFF) == x
    ensures x & 0xFF00_0000 == 0 && Up1(x) & 0xFF00_0000 == 0 && Up2(x) & 0xFF00_0000 == 0
    ensures x << 8 == Up1(x) && Up1(x) << 8 == Up2(x) && Up2(x) << 8 == Up3(x)
  {
  }

  /** A byte one, two or three places lower reaches the top place with as many steps. */
  lemma Climb(b: byte)
    ensures ByteStep(Bits(b)) == Up1(Bits(b))
    ensures ByteStep(Up1(Bits(b))) == Up2(Bits(b))
    ensures ByteStep(Up2(Bits(b))) == Top(b)
  {
    hide ByteStep, And, Bits, Up1, Up2, Up3;
    BitsAreSmall(b);
    LowPlaces(Bits(b));
    ByteStepLow(Bits(b));
    ByteStepLow(Up1(Bits(b)));
    ByteStepLow(Up2(Bits(b)));
  }

  // ---------- one bit at a time ----------

  function Steps(r: bv32, n: nat): bv32 {
    if n == 0 then r else BitStep(Steps(r, n - 1))
  }

  lemma {:induction false} StepsAdd(x: bv32, y: bv32, n: nat)
    ensures Steps(Add(x, y), n) == Add(Steps(x, n), Steps(y, n))
  {
    hide BitStep, Add;
    if n > 0 {
      StepsAdd(x, y, n - 1);
      BitStepAdds(Steps(x, n - 1), Steps(y, n - 1));
    }
  }

  lemma {:induction false} StepsAfter(x: bv32, m: nat, n: nat)
    ensures Steps(Steps(x, m), n) == Steps(x, m + n)
  {
    hide BitStep;
    if n > 0 {
      StepsAfter(x, m, n - 1);
    }
  }

  lemma FourSteps(x: bv32)
    ensures Steps(x, 1) == BitStep(x)
    ensures Steps(x, 3) == BitStep(BitStep(BitStep(x))) && Steps(x, 4) == BitStep(BitStep(BitStep(BitStep(x))))
  {
    hide BitStep;
    assert Steps(x, 1) == BitStep(Steps(x, 0)) && Steps(x, 2) == BitStep(Steps(x, 1));
    assert Steps(x, 3) == BitStep(Steps(x, 2)) && Steps(x, 4) == BitStep(Steps(x, 3));
  }

  lemma EightSteps(x: bv32)
    ensures Steps(x, 8) == ByteStep(x)
  {
    hide BitStep;
    FourSteps(x);
    StepsAfter(x, 4, 4);
    FourSteps(Steps(x, 4));
  }

  /** A bit in the top place. */
  function TopBit(bit: bool): bv32 { if bit then 0x8000_0000 else 0 }

  /** The remainder after the bits of a message. */
  function BitRemainder(r: bv32, v: seq<bool>): bv32
    decreases |v|
  {
    if v == [] then r else BitRemainder(BitStep(Add(r, TopBit(v[0]))), v[1..])
  }

  lemma {:induction false} BitRemainderConcat(r: bv32, v: seq<bool>, w: seq<bool>)
    ensures BitRemainder(r, v + w) == BitRemainder(BitRemainder(r, v), w)
    decreases |v|
  {
    hide BitStep, Add, TopBit;
    if v == [] {
      assert v + w == w;
    } else {
      assert (v + w)[1..] == v[1..] + w;
      BitRemainderConcat(BitStep(Add(r, TopBit(v[0]))), v[1..], w);
    }
  }

  /** The k binary digits of b, the highest first. */
  function Digits(b: nat, k: nat): (v: seq<bool>)
    ensures |v| == k
  {
    if k == 0 then [] else Digits(b / 2, k - 1) + [b % 2 == 1]
  }

  lemma {:induction false} DigitsInjective(a: nat, b: nat, k: nat)
    requires a < Two(k) && b < Two(k) && Digits(a, k) == Digits(b, k)
    ensures a == b
  {
    if k > 0 {
      var v, w := Digits(a, k), Digits(b, k);
      assert v[k - 1] == (a % 2 == 1) && w[k - 1] == (b % 2 == 1);
      assert v[..k - 1] == Digits(a / 2, k - 1) && w[..k - 1] == Digits(b / 2, k - 1);
      DigitsInjective(a / 2, b / 2, k - 1);
    }
  }

  function LowBit(bit: bool): bv32 { if bit then 1 else 0 }

  lemma AppendIsStep(x: bv32, bit: bool)
    requires Short(x)
    ensures Append(x, bit) == Add(BitStep(x), LowBit(bit))
  {
  }

  /** A bit climbs to the top place in 31 steps. */
  lemma BitClimbs(bit: bool)
    ensures Steps(LowBit(bit), 31) == TopBit(bit)
  {
    hide BitStep, ByteStep;
    var x := LowBit(bit);
    FirstBitIsLow(bit);
    EightSteps(x);
    EightSteps(x << 8);
    EightSteps(x << 16);
    ByteStepLow(x);
    ByteStepLow(x << 8);
    ByteStepLow(x << 16);
    StepsAfter(x, 8, 8);
    StepsAfter(x, 16, 8);
    StepsAfter(x, 24, 7);
    SevenSteps(bit);
  }

  lemma FirstBitIsLow(bit: bool)
    ensures var x := LowBit(bit);
      && x & 0xFF00_0000 == 0 && (x << 8) & 0xFF00_0000 == 0 && (x << 16) & 0xFF00_0000 == 0
      && x << 8 << 8 == x << 16 && x << 16 << 8 == x << 24
  {
  }

  lemma SevenSteps(bit: bool)
    ensures Steps(LowBit(bit) << 24, 7) == TopBit(bit)
  {
    var x := LowBit(bit) << 24;
    FourSteps(x);
    FourSteps(Steps(x, 3));
    StepsAfter(x, 3, 4);
  }

  /** Hashing the k digits of b bit by bit adds b, 32 places further up. */
  lemma {:induction false} DigitsAreAdded(r: bv32, b: nat, k: nat)
    requires k <= 8
    ensures BitRemainder(r, Digits(b, k)) == Add(Steps(r, k), Steps(Widen(b, k), 32))
  {
    hide BitStep, Add, TopBit, LowBit, Append, Short, And;
    if k == 0 {
      NothingAdded(r);
    } else {
      var v, bit := Digits(b / 2, k - 1), b % 2 == 1;
      var w := Widen(b / 2, k - 1);
      DigitsAreAdded(r, b / 2, k - 1);
      BitRemainderConcat(r, v, [bit]);
      OneBit(BitRemainder(r, v), bit);
      BitClimbs(bit);
      WidenFits(b / 2, k - 1);
      ShortMask(k - 1);
      MaskedIsShort(w, Mask(k - 1));
      AppendIsStep(w, bit);
      StepsAdd(BitStep(w), LowBit(bit), 32);
      StepsAfter(w, 1, 32);
      StepsAfter(w, 32, 1);
      FourSteps(w);
      FourSteps(Steps(w, 32));
      BitStepAdds(Add(Steps(r, k - 1), Steps(w, 32)), TopBit(bit));
      BitStepAdds(Steps(r, k - 1), Steps(w, 32));
      AddAssociative(Steps(r, k), BitStep(Steps(w, 32)), BitStep(TopBit(bit)));
    }
  }

  lemma NothingAdded(r: bv32)
    ensures Steps(0, 32) == 0 && Add(r, 0) == r
  {
    hide BitStep, ByteStep;
    ZeroStays();
    EightSteps(0);
    StepsAfter(0, 8, 8);
    StepsAfter(0, 16, 8);
    StepsAfter(0, 24, 8);
  }

  lemma ZeroStays()
    ensures ByteStep(0) == 0
  {
  }

  lemma OneBit(r: bv32, bit: bool)
    ensures BitRemainder(r, [bit]) == BitStep(Add(r, TopBit(bit)))
  {
    hide BitStep, Add, TopBit;
    assert [bit][1..] == [];
  }

  lemma AddAssociative(x: bv32, y: bv32, z: bv32)
    ensures Add(Add(x, y), z) == Add(x, Add(y, z))
  {
  }

  /** The division takes a byte as its eight digits, the highest first. */
  lemma ByteAsBits(r: bv32, b: byte)
    ensures BitRemainder(r, Digits(b, 8)) == Next(r, b)
  {
    hide BitStep, ByteStep, Add, Up1, Up2, Up3, Widen;
    DigitsAreAdded(r, b, 8);
    var x := Bits(b);
    Climb(b);
    EightSteps(x);
    EightSteps(Up1(x));
    EightSteps(Up2(x));
    StepsAfter(x, 8, 8);
    StepsAfter(x, 16, 8);
    StepsAfter(x, 24, 8);
    EightSteps(Top(b));
    EightSteps(r);
    ByteStepAdds(r, Top(b));
  }

  function MessageBits(s: seq<byte>): (v: seq<bool>)
    ensures |v| == 8 * |s|
  {
    if s == [] then [] else Digits(s[0], 8) + MessageBits(s[1..])
  }

  lemma {:induction false} RemainderAsBits(r: bv32, s: seq<byte>)
    ensures Remainder(r, s) == BitRemainder(r, MessageBits(s))
    decreases |s|
  {
    hide Next, Digits, BitStep, Add;
    if s != [] {
      BitRemainderConcat(r, Digits(s[0], 8), MessageBits(s[1..]));
      ByteAsBits(r, s[0]);
      RemainderAsBits(Next(r, s[0]), s[1..]);
    }
  }

  lemma {:induction false} MessageBitsInjective(s: seq<byte>, t: seq<byte>)
    requires |s| == |t| && MessageBits(s) == MessageBits(t)
    ensures s == t
    decreases |s|
  {
    hide Digits;
    if s != [] {
      var v, w := MessageBits(s), MessageBits(t);
      assert v[..8] == Digits(s[0], 8) && w[..8] == Digits(t[0], 8);
      assert v[8..] == MessageBits(s[1..]) && w[8..] == MessageBits(t[1..]);
      assert Two(8) == 256 by { assert Two(4) == 16; }
      DigitsInjective(s[0], t[0], 8);
      MessageBitsInjective(s[1..], t[1..]);
      assert s == [s[0]] + s[1..] && t == [t[0]] + t[1..];
    }
  }

  // ---------- bursts ----------

  lemma BitStepInjective(x: bv32, y: bv32)
    requires BitStep(x) == BitStep(y)
    ensures x == y
  {
    hide BitStep, Add;
    BitStepAdds(x, y);
    AddZero(BitStep(x), BitStep(y));
    BitStepKernel(Add(x, y));
    AddZero(x, y);
  }

  lemma {:induction false} SameBitsInjective(x: bv32, y: bv32, v: seq<bool>)
    requires BitRemainder(x, v) == BitRemainder(y, v)
    ensures x == y
    decreases |v|
  {
    hide BitStep, Add, TopBit;
    if v != [] {
      SameBitsInjective(BitStep(Add(x, TopBit(v[0]))), BitStep(Add(y, TopBit(v[0]))), v[1..]);
      BitStepInjective(Add(x, TopBit(v[0])), Add(y, TopBit(v[0])));
      AddCancels(x, y, TopBit(v[0]));
    }
  }

  /** Remainders that k bits can make equal differ at most in the k highest places. */
  lemma {:induction false} HighPlacesDiffer(x: bv32, y: bv32, v: seq<bool>, w: seq<bool>)
    requires |v| == |w| <= 32 && BitRemainder(x, v) == BitRemainder(y, w)
    ensures And(Add(x, y), Mask(32 - |v|)) == 0
    decreases |v|
  {
    hide BitStep, Add, TopBit, And, Append;
    if v == [] {
      AddZero(x, y);
      ZeroAnd(Mask(32));
    } else {
      var x', y' := Add(x, TopBit(v[0])), Add(y, TopBit(w[0]));
      HighPlacesDiffer(BitStep(x'), BitStep(y'), v[1..], w[1..]);
      BitStepAdds(x', y');
      var m := Mask(32 - |v|);
      LowerPlaces(Add(x', y'), m);
      MaskBelowTop(32 - |v|);
      TopBitsAway(x, y, v[0], w[0], m);
    }
  }

  lemma ZeroAnd(m: bv32)
    ensures And(0, m) == 0
  {
  }

  /** Low places that are clear after a step were clear before it. */
  lemma LowerPlaces(z: bv32, m: bv32)
    requires And(BitStep(z), Append(m, true)) == 0
    ensures And(z, m) == 0
  {
  }

  lemma TopBitsAway(x: bv32, y: bv32, p: bool, q: bool, m: bv32)
    requires m & 0x8000_0000 == 0 && And(Add(Add(x, TopBit(p)), Add(y, TopBit(q))), m) == 0
    ensures And(Add(x, y), m) == 0
  {
  }

  lemma {:induction false} MaskGrows(n: nat, m: nat)
    requires n <= m
    ensures And(Mask(n), Mask(m)) == Mask(n)
  {
    hide And, Append;
    if n == 0 {
      ZeroAnd(Mask(m));
    } else {
      MaskGrows(n - 1, m - 1);
      MaskShift(Mask(n - 1), Mask(m - 1), true);
    }
  }

  function FourOnes(x: bv32): bv32 { Append(Append(Append(Append(x, true), true), true), true) }

  lemma MaskFour(n: nat)
    ensures Mask(n + 4) == FourOnes(Mask(n))
  {
    hide Append;
    assert Mask(n + 1) == Append(Mask(n), true) && Mask(n + 2) == Append(Mask(n + 1), true);
    assert Mask(n + 3) == Append(Mask(n + 2), true) && Mask(n + 4) == Append(Mask(n + 3), true);
  }

  lemma OnesOf31()
    ensures FourOnes(FourOnes(FourOnes(FourOnes(FourOnes(FourOnes(0x7F)))))) == 0x7FFF_FFFF
  {
  }

  lemma MaskOf31()
    ensures Mask(31) == 0x7FFF_FFFF
  {
    hide FourOnes, Mask;
    MaskValues();
    MaskFour(7);
    MaskFour(11);
    MaskFour(15);
    MaskFour(19);
    MaskFour(23);
    MaskFour(27);
    OnesOf31();
  }

  lemma MaskBelowTop(n: nat)
    requires n <= 31
    ensures Mask(n) & 0x8000_0000 == 0
  {
    hide Mask;
    MaskGrows(n, 31);
    MaskOf31();
  }

  /** No more than 32 bits are told apart. */
  lemma {:induction false} ShortInjective(r: bv32, v: seq<bool>, w: seq<bool>)
    requires |v| == |w| <= 32 && BitRemainder(r, v) == BitRemainder(r, w)
    ensures v == w
    decreases |v|
  {
    hide BitStep, Add, TopBit, And, Mask;
    if v != [] {
      var x, y := BitStep(Add(r, TopBit(v[0]))), BitStep(Add(r, TopBit(w[0])));
      if v[0] != w[0] {
        HighPlacesDiffer(x, y, v[1..], w[1..]);
        BitStepAdds(Add(r, TopBit(v[0])), Add(r, TopBit(w[0])));
        ConstantTerm(r, v[0], w[0], 33 - |v|);
        assert false;
      }
      ShortInjective(x, v[1..], w[1..]);
      assert v == [v[0]] + v[1..] && w == [w[0]] + w[1..];
    }
  }

  /** One bit of difference leaves the polynomial, which has a constant term. */
  lemma ConstantTerm(r: bv32, p: bool, q: bool, n: nat)
    requires p != q && 1 <= n <= 32
    ensures And(BitStep(Add(Add(r, TopBit(p)), Add(r, TopBit(q)))), Mask(n)) != 0
  {
    hide Append;
    MaskIsOdd(Mask(n - 1));
    DifferenceIsTop(r, p, q);
  }

  lemma MaskIsOdd(m: bv32)
    ensures Append(m, true) & 1 == 1
  {
  }

  lemma DifferenceIsTop(r: bv32, p: bool, q: bool)
    requires p != q
    ensures BitStep(Add(Add(r, TopBit(p)), Add(r, TopBit(q)))) == POLYNOMIAL
  {
  }

  /** s and t differ at most in the 32 bits from bit p. */
  ghost predicate DifferWithin(s: seq<byte>, t: seq<byte>, p: nat) {
    && |s| == |t|
    && forall i :: 0 <= i < 8 * |s| && (i < p || i >= p + 32) ==> MessageBits(s)[i] == MessageBits(t)[i]
  }

  lemma {:induction false} BitBurst(r: bv32, v: seq<bool>, w: seq<bool>, p: nat)
    requires |v| == |w| && BitRemainder(r, v) == BitRemainder(r, w)
    requires forall i :: 0 <= i < |v| && (i < p || i >= p + 32) ==> v[i] == w[i]
    ensures v == w
    decreases p
  {
    hide BitStep, Add, TopBit;
    if p > 0 && v != [] {
      BitBurst(BitStep(Add(r, TopBit(v[0]))), v[1..], w[1..], p - 1);
      assert v == [v[0]] + v[1..] && w == [w[0]] + w[1..];
    } else {
      var n := Min(32, |v|);
      assert v == v[..n] + v[n..] && w == w[..n] + w[n..];
      assert v[n..] == w[n..];
      BitRemainderConcat(r, v[..n], v[n..]);
      BitRemainderConcat(r, w[..n], w[n..]);
      SameBitsInjective(BitRemainder(r, v[..n]), BitRemainder(r, w[..n]), v[n..]);
      ShortInjective(r, v[..n], w[..n]);
    }
  }

  /** Two messages of one length that differ only within 32 consecutive bits, wherever
      these begin, never share a CRC. */
  lemma BurstDetected(s: seq<byte>, t: seq<byte>, p: nat)
    requires DifferWithin(s, t, p) && Crc(s) == Crc(t)
    ensures s == t
  {
    hide Add, Remainder, BitRemainder, MessageBits;
    var r := Add(0, ONES);
    AddCancels(Remainder(r, s), Remainder(r, t), ONES);
    RemainderAsBits(r, s);
    RemainderAsBits(r, t);
    BitBurst(r, MessageBits(s), MessageBits(t), p);
    MessageBitsInjective(s, t);
  }
}
