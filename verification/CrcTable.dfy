/** The table of storage.include/crc.c. */
module CrcTable {
  import opened Gf2

  const ROW_0: seq<bv32> := [
    0x00000000, 0x1EDC6F41, 0x3DB8DE82, 0x2364B1C3, 0x7B71BD04, 0x65ADD245, 0x46C96386, 0x58150CC7,
    0xF6E37A08, 0xE83F1549, 0xCB5BA48A, 0xD587CBCB, 0x8D92C70C, 0x934EA84D, 0xB02A198E, 0xAEF676CF]

  const ROW_1: seq<bv32> := [
    0xF31A9B51, 0xEDC6F410, 0xCEA245D3, 0xD07E2A92, 0x886B2655, 0x96B74914, 0xB5D3F8D7, 0xAB0F9796,
    0x05F9E159, 0x1B258E18, 0x38413FDB, 0x269D509A, 0x7E885C5D, 0x6054331C, 0x433082DF, 0x5DECED9E]

  const ROW_2: seq<bv32> := [
    0xF8E959E3, 0xE63536A2, 0xC5518761, 0xDB8DE820, 0x8398E4E7, 0x9D448BA6, 0xBE203A65, 0xA0FC5524,
    0x0E0A23EB, 0x10D64CAA, 0x33B2FD69, 0x2D6E9228, 0x757B9EEF, 0x6BA7F1AE, 0x48C3406D, 0x561F2F2C]

  const ROW_3: seq<bv32> := [
    0x0BF3C2B2, 0x152FADF3, 0x364B1C30, 0x28977371, 0x70827FB6, 0x6E5E10F7, 0x4D3AA134, 0x53E6CE75,
    0xFD10B8BA, 0xE3CCD7FB, 0xC0A86638, 0xDE740979, 0x866105BE, 0x98BD6AFF, 0xBBD9DB3C, 0xA505B47D]

  const ROW_4: seq<bv32> := [
    0xEF0EDC87, 0xF1D2B3C6, 0xD2B60205, 0xCC6A6D44, 0x947F6183, 0x8AA30EC2, 0xA9C7BF01, 0xB71BD040,
    0x19EDA68F, 0x0731C9CE, 0x2455780D, 0x3A89174C, 0x629C1B8B, 0x7C4074CA, 0x5F24C509, 0x41F8AA48]

  const ROW_5: seq<bv32> := [
    0x1C1447D6, 0x02C82897, 0x21AC9954, 0x3F70F615, 0x6765FAD2, 0x79B99593, 0x5ADD2450, 0x44014B11,
    0xEAF73DDE, 0xF42B529F, 0xD74FE35C, 0xC9938C1D, 0x918680DA, 0x8F5AEF9B, 0xAC3E5E58, 0xB2E23119]

  const ROW_6: seq<bv32> := [
    0x17E78564, 0x093BEA25, 0x2A5F5BE6, 0x348334A7, 0x6C963860, 0x724A5721, 0x512EE6E2, 0x4FF289A3,
    0xE104FF6C, 0xFFD8902D, 0xDCBC21EE, 0xC2604EAF, 0x9A754268, 0x84A92D29, 0xA7CD9CEA, 0xB911F3AB]

  const ROW_7: seq<bv32> := [
    0xE4FD1E35, 0xFA217174, 0xD945C0B7, 0xC799AFF6, 0x9F8CA331, 0x8150CC70, 0xA2347DB3, 0xBCE812F2,
    0x121E643D, 0x0CC20B7C, 0x2FA6BABF, 0x317AD5FE, 0x696FD939, 0x77B3B678, 0x54D707BB, 0x4A0B68FA]

  const ROW_8: seq<bv32> := [
    0xC0C1D64F, 0xDE1DB90E, 0xFD7908CD, 0xE3A5678C, 0xBBB06B4B, 0xA56C040A, 0x8608B5C9, 0x98D4DA88,
    0x3622AC47, 0x28FEC306, 0x0B9A72C5, 0x15461D84, 0x4D531143, 0x538F7E02, 0x70EBCFC1, 0x6E37A080]

  const ROW_9: seq<bv32> := [
    0x33DB4D1E, 0x2D07225F, 0x0E63939C, 0x10BFFCDD, 0x48AAF01A, 0x56769F5B, 0x75122E98, 0x6BCE41D9,
    0xC5383716, 0xDBE45857, 0xF880E994, 0xE65C86D5, 0xBE498A12, 0xA095E553, 0x83F15490, 0x9D2D3BD1]

  const ROW_A: seq<bv32> := [
    0x38288FAC, 0x26F4E0ED, 0x0590512E, 0x1B4C3E6F, 0x435932A8, 0x5D855DE9, 0x7EE1EC2A, 0x603D836B,
    0xCECBF5A4, 0xD0179AE5, 0xF3732B26, 0xEDAF4467, 0xB5BA48A0, 0xAB6627E1, 0x88029622, 0x96DEF963]

  const ROW_B: seq<bv32> := [
    0xCB3214FD, 0xD5EE7BBC, 0xF68ACA7F, 0xE856A53E, 0xB043A9F9, 0xAE9FC6B8, 0x8DFB777B, 0x9327183A,
    0x3DD16EF5, 0x230D01B4, 0x0069B077, 0x1EB5DF36, 0x46A0D3F1, 0x587CBCB0, 0x7B180D73, 0x65C46232]

  const ROW_C: seq<bv32> := [
    0x2FCF0AC8, 0x31136589, 0x1277D44A, 0x0CABBB0B, 0x54BEB7CC, 0x4A62D88D, 0x6906694E, 0x77DA060F,
    0xD92C70C0, 0xC7F01F81, 0xE494AE42, 0xFA48C103, 0xA25DCDC4, 0xBC81A285, 0x9FE51346, 0x81397C07]

  const ROW_D: seq<bv32> := [
    0xDCD59199, 0xC209FED8, 0xE16D4F1B, 0xFFB1205A, 0xA7A42C9D, 0xB97843DC, 0x9A1CF21F, 0x84C09D5E,
    0x2A36EB91, 0x34EA84D0, 0x178E3513, 0x09525A52, 0x51475695, 0x4F9B39D4, 0x6CFF8817, 0x7223E756]

  const ROW_E: seq<bv32> := [
    0xD726532B, 0xC9FA3C6A, 0xEA9E8DA9, 0xF442E2E8, 0xAC57EE2F, 0xB28B816E, 0x91EF30AD, 0x8F335FEC,
    0x21C52923, 0x3F194662, 0x1C7DF7A1, 0x02A198E0, 0x5AB49427, 0x4468FB66, 0x670C4AA5, 0x79D025E4]

  const ROW_F: seq<bv32> := [
    0x243CC87A, 0x3AE0A73B, 0x198416F8, 0x075879B9, 0x5F4D757E, 0x41911A3F, 0x62F5ABFC, 0x7C29C4BD,
    0xD2DFB272, 0xCC03DD33, 0xEF676CF0, 0xF1BB03B1, 0xA9AE0F76, 0xB7726037, 0x9416D1F4, 0x8ACABEB5]

  function Table(i: bv8): bv32 {
    if i < 0x10 then ROW_0[i as int]
    else if i < 0x20 then ROW_1[(i - 0x10) as int]
    else if i < 0x30 then ROW_2[(i - 0x20) as int]
    else if i < 0x40 then ROW_3[(i - 0x30) as int]
    else if i < 0x50 then ROW_4[(i - 0x40) as int]
    else if i < 0x60 then ROW_5[(i - 0x50) as int]
    else if i < 0x70 then ROW_6[(i - 0x60) as int]
    else if i < 0x80 then ROW_7[(i - 0x70) as int]
    else if i < 0x90 then ROW_8[(i - 0x80) as int]
    else if i < 0xA0 then ROW_9[(i - 0x90) as int]
    else if i < 0xB0 then ROW_A[(i - 0xA0) as int]
    else if i < 0xC0 then ROW_B[(i - 0xB0) as int]
    else if i < 0xD0 then ROW_C[(i - 0xC0) as int]
    else if i < 0xE0 then ROW_D[(i - 0xD0) as int]
    else if i < 0xF0 then ROW_E[(i - 0xE0) as int]
    else ROW_F[(i - 0xF0) as int]
  }

  lemma Row0(i: bv8)
    requires i <= 0x0F
    ensures ROW_0[i as int] == Shift8(High8(i))
  {
    if i == 0x00 {
      ZeroEntry();
    } else if i < 0x08 {
      assert i == 0x01 || i == 0x02 || i == 0x03 || i == 0x04 || i == 0x05 || i == 0x06 || i == 0x07;
    } else {
      assert i == 0x08 || i == 0x09 || i == 0x0A || i == 0x0B || i == 0x0C || i == 0x0D || i == 0x0E || i == 0x0F;
    }
  }

  lemma ZeroEntry()
    ensures ROW_0[0] == Shift8(High8(0x00))
  {
    assert High8(0x00) == 0;
    assert Next(0, false) == 0;
  }

  lemma Row1(i: bv8)
    requires 0x10 <= i <= 0x1F
    ensures ROW_1[(i - 0x10) as int] == Shift8(High8(i))
  {
    if i < 0x18 {
      assert i == 0x10 || i == 0x11 || i == 0x12 || i == 0x13 || i == 0x14 || i == 0x15 || i == 0x16 || i == 0x17;
    } else {
      assert i == 0x18 || i == 0x19 || i == 0x1A || i == 0x1B || i == 0x1C || i == 0x1D || i == 0x1E || i == 0x1F;
    }
  }

  lemma Row2(i: bv8)
    requires 0x20 <= i <= 0x2F
    ensures ROW_2[(i - 0x20) as int] == Shift8(High8(i))
  {
    if i < 0x28 {
      assert i == 0x20 || i == 0x21 || i == 0x22 || i == 0x23 || i == 0x24 || i == 0x25 || i == 0x26 || i == 0x27;
    } else {
      assert i == 0x28 || i == 0x29 || i == 0x2A || i == 0x2B || i == 0x2C || i == 0x2D || i == 0x2E || i == 0x2F;
    }
  }

  lemma Row3(i: bv8)
    requires 0x30 <= i <= 0x3F
    ensures ROW_3[(i - 0x30) as int] == Shift8(High8(i))
  {
    if i < 0x38 {
      assert i == 0x30 || i == 0x31 || i == 0x32 || i == 0x33 || i == 0x34 || i == 0x35 || i == 0x36 || i == 0x37;
    } else {
      assert i == 0x38 || i == 0x39 || i == 0x3A || i == 0x3B || i == 0x3C || i == 0x3D || i == 0x3E || i == 0x3F;
    }
  }

  lemma Row4(i: bv8)
    requires 0x40 <= i <= 0x4F
    ensures ROW_4[(i - 0x40) as int] == Shift8(High8(i))
  {
    if i < 0x48 {
      assert i == 0x40 || i == 0x41 || i == 0x42 || i == 0x43 || i == 0x44 || i == 0x45 || i == 0x46 || i == 0x47;
    } else {
      assert i == 0x48 || i == 0x49 || i == 0x4A || i == 0x4B || i == 0x4C || i == 0x4D || i == 0x4E || i == 0x4F;
    }
  }

  lemma Row5(i: bv8)
    requires 0x50 <= i <= 0x5F
    ensures ROW_5[(i - 0x50) as int] == Shift8(High8(i))
  {
    if i < 0x58 {
      assert i == 0x50 || i == 0x51 || i == 0x52 || i == 0x53 || i == 0x54 || i == 0x55 || i == 0x56 || i == 0x57;
    } else {
      assert i == 0x58 || i == 0x59 || i == 0x5A || i == 0x5B || i == 0x5C || i == 0x5D || i == 0x5E || i == 0x5F;
    }
  }

  lemma Row6(i: bv8)
    requires 0x60 <= i <= 0x6F
    ensures ROW_6[(i - 0x60) as int] == Shift8(High8(i))
  {
    if i < 0x68 {
      assert i == 0x60 || i == 0x61 || i == 0x62 || i == 0x63 || i == 0x64 || i == 0x65 || i == 0x66 || i == 0x67;
    } else {
      assert i == 0x68 || i == 0x69 || i == 0x6A || i == 0x6B || i == 0x6C || i == 0x6D || i == 0x6E || i == 0x6F;
    }
  }

  lemma Row7(i: bv8)
    requires 0x70 <= i <= 0x7F
    ensures ROW_7[(i - 0x70) as int] == Shift8(High8(i))
  {
    if i < 0x78 {
      assert i == 0x70 || i == 0x71 || i == 0x72 || i == 0x73 || i == 0x74 || i == 0x75 || i == 0x76 || i == 0x77;
    } else {
      assert i == 0x78 || i == 0x79 || i == 0x7A || i == 0x7B || i == 0x7C || i == 0x7D || i == 0x7E || i == 0x7F;
    }
  }

  lemma Row8(i: bv8)
    requires 0x80 <= i <= 0x8F
    ensures ROW_8[(i - 0x80) as int] == Shift8(High8(i))
  {
    if i < 0x88 {
      assert i == 0x80 || i == 0x81 || i == 0x82 || i == 0x83 || i == 0x84 || i == 0x85 || i == 0x86 || i == 0x87;
    } else {
      assert i == 0x88 || i == 0x89 || i == 0x8A || i == 0x8B || i == 0x8C || i == 0x8D || i == 0x8E || i == 0x8F;
    }
  }

  lemma Row9(i: bv8)
    requires 0x90 <= i <= 0x9F
    ensures ROW_9[(i - 0x90) as int] == Shift8(High8(i))
  {
    if i < 0x98 {
      assert i == 0x90 || i == 0x91 || i == 0x92 || i == 0x93 || i == 0x94 || i == 0x95 || i == 0x96 || i == 0x97;
    } else {
      assert i == 0x98 || i == 0x99 || i == 0x9A || i == 0x9B || i == 0x9C || i == 0x9D || i == 0x9E || i == 0x9F;
    }
  }

  lemma RowA(i: bv8)
    requires 0xA0 <= i <= 0xAF
    ensures ROW_A[(i - 0xA0) as int] == Shift8(High8(i))
  {
    if i < 0xA8 {
      assert i == 0xA0 || i == 0xA1 || i == 0xA2 || i == 0xA3 || i == 0xA4 || i == 0xA5 || i == 0xA6 || i == 0xA7;
    } else {
      assert i == 0xA8 || i == 0xA9 || i == 0xAA || i == 0xAB || i == 0xAC || i == 0xAD || i == 0xAE || i == 0xAF;
    }
  }

  lemma RowB(i: bv8)
    requires 0xB0 <= i <= 0xBF
    ensures ROW_B[(i - 0xB0) as int] == Shift8(High8(i))
  {
    if i < 0xB8 {
      assert i == 0xB0 || i == 0xB1 || i == 0xB2 || i == 0xB3 || i == 0xB4 || i == 0xB5 || i == 0xB6 || i == 0xB7;
    } else {
      assert i == 0xB8 || i == 0xB9 || i == 0xBA || i == 0xBB || i == 0xBC || i == 0xBD || i == 0xBE || i == 0xBF;
    }
  }

  lemma RowC(i: bv8)
    requires 0xC0 <= i <= 0xCF
    ensures ROW_C[(i - 0xC0) as int] == Shift8(High8(i))
  {
    if i < 0xC8 {
      assert i == 0xC0 || i == 0xC1 || i == 0xC2 || i == 0xC3 || i == 0xC4 || i == 0xC5 || i == 0xC6 || i == 0xC7;
    } else {
      assert i == 0xC8 || i == 0xC9 || i == 0xCA || i == 0xCB || i == 0xCC || i == 0xCD || i == 0xCE || i == 0xCF;
    }
  }

  lemma RowD(i: bv8)
    requires 0xD0 <= i <= 0xDF
    ensures ROW_D[(i - 0xD0) as int] == Shift8(High8(i))
  {
    if i < 0xD8 {
      assert i == 0xD0 || i == 0xD1 || i == 0xD2 || i == 0xD3 || i == 0xD4 || i == 0xD5 || i == 0xD6 || i == 0xD7;
    } else {
      assert i == 0xD8 || i == 0xD9 || i == 0xDA || i == 0xDB || i == 0xDC || i == 0xDD || i == 0xDE || i == 0xDF;
    }
  }

  lemma RowE(i: bv8)
    requires 0xE0 <= i <= 0xEF
    ensures ROW_E[(i - 0xE0) as int] == Shift8(High8(i))
  {
    if i < 0xE8 {
      assert i == 0xE0 || i == 0xE1 || i == 0xE2 || i == 0xE3 || i == 0xE4 || i == 0xE5 || i == 0xE6 || i == 0xE7;
    } else {
      assert i == 0xE8 || i == 0xE9 || i == 0xEA || i == 0xEB || i == 0xEC || i == 0xED || i == 0xEE || i == 0xEF;
    }
  }

  lemma RowF(i: bv8)
    requires 0xF0 <= i <= 0xFF
    ensures ROW_F[(i - 0xF0) as int] == Shift8(High8(i))
  {
    if i < 0xF8 {
      assert i == 0xF0 || i == 0xF1 || i == 0xF2 || i == 0xF3 || i == 0xF4 || i == 0xF5 || i == 0xF6 || i == 0xF7;
    } else {
      assert i == 0xF8 || i == 0xF9 || i == 0xFA || i == 0xFB || i == 0xFC || i == 0xFD || i == 0xFE || i == 0xFF;
    }
  }

  /** Every entry is the remainder of its index: the table agrees with the polynomial. */
  lemma TableOk(i: bv8)
    ensures Table(i) == Shift8(High8(i))
  {
    if i < 0x10 {
      Row0(i);
    } else if i < 0x20 {
      Row1(i);
    } else if i < 0x30 {
      Row2(i);
    } else if i < 0x40 {
      Row3(i);
    } else if i < 0x50 {
      Row4(i);
    } else if i < 0x60 {
      Row5(i);
    } else if i < 0x70 {
      Row6(i);
    } else if i < 0x80 {
      Row7(i);
    } else if i < 0x90 {
      Row8(i);
    } else if i < 0xA0 {
      Row9(i);
    } else if i < 0xB0 {
      RowA(i);
    } else if i < 0xC0 {
      RowB(i);
    } else if i < 0xD0 {
      RowC(i);
    } else if i < 0xE0 {
      RowD(i);
    } else if i < 0xF0 {
      RowE(i);
    } else {
      RowF(i);
    }
  }

  /** The table loop takes one byte as the division does. */
  lemma TurnIsByte(x: bv32, w: bv8)
    ensures Merge(x, Table(Selected(x, w))) == NextByte(x, w)
  {
    TableOk(Selected(x, w));
    TableForm(x, w);
  }
}
