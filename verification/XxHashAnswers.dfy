/** Published hash values, which fix every constant, rotation and step of xxHash. */
module XxHashAnswers {
  import opened ByteOrder
  import opened XxHash

  /** "Nobody inspects the spammish repetition" */
  const NOBODY: Bytes := [
    0x4E, 0x6F, 0x62, 0x6F, 0x64, 0x79, 0x20, 0x69, 0x6E, 0x73, 0x70, 0x65, 0x63, 0x74, 0x73, 0x20,
    0x74, 0x68, 0x65, 0x20, 0x73, 0x70, 0x61, 0x6D, 0x6D, 0x69, 0x73, 0x68, 0x20, 0x72, 0x65, 0x70,
    0x65, 0x74, 0x69, 0x74, 0x69, 0x6F, 0x6E]

  /** "Call me Ishmael. Some years ago--never mind how long precisely-" */
  const ISHMAEL: Bytes := [
    0x43, 0x61, 0x6C, 0x6C, 0x20, 0x6D, 0x65, 0x20, 0x49, 0x73, 0x68, 0x6D, 0x61, 0x65, 0x6C, 0x2E,
    0x20, 0x53, 0x6F, 0x6D, 0x65, 0x20, 0x79, 0x65, 0x61, 0x72, 0x73, 0x20, 0x61, 0x67, 0x6F, 0x2D,
    0x2D, 0x6E, 0x65, 0x76, 0x65, 0x72, 0x20, 0x6D, 0x69, 0x6E, 0x64, 0x20, 0x68, 0x6F, 0x77, 0x20,
    0x6C, 0x6F, 0x6E, 0x67, 0x20, 0x70, 0x72, 0x65, 0x63, 0x69, 0x73, 0x65, 0x6C, 0x79, 0x2D]

  // ---------- XXH32 ----------

  lemma FirstWords32(s: Bytes)
    requires s == [0x4E, 0x6F, 0x62, 0x6F, 0x64, 0x79, 0x20, 0x69, 0x6E, 0x73, 0x70, 0x65, 0x63, 0x74, 0x73, 0x20]
    ensures Read32(s, 0) == 0x6F62_6F4E && Read32(s, 4) == 0x6920_7964
    ensures Read32(s, 8) == 0x6570_736E && Read32(s, 12) == 0x2073_7463
  {
    hide Load32;
    FirstLoads32();
  }

  lemma FirstLoads32()
    ensures Load32(0x4E, 0x6F, 0x62, 0x6F) == 0x6F62_6F4E
    ensures Load32(0x64, 0x79, 0x20, 0x69) == 0x6920_7964
    ensures Load32(0x6E, 0x73, 0x70, 0x65) == 0x6570_736E
    ensures Load32(0x63, 0x74, 0x73, 0x20) == 0x2073_7463
  {
  }

  lemma FirstRounds32()
    ensures Round32(0x2423_4428, 0x6F62_6F4E) == 0x046A_700A
    ensures Round32(0x85EB_CA77, 0x6920_7964) == 0xBFAD_F8E3
    ensures Round32(0x0000_0000, 0x6570_736E) == 0x5B32_B4AA
    ensures Round32(0x61C8_864F, 0x2073_7463) == 0x137E_5555
  {
  }

  lemma SecondWords32(s: Bytes)
    requires s == [0x74, 0x68, 0x65, 0x20, 0x73, 0x70, 0x61, 0x6D, 0x6D, 0x69, 0x73, 0x68, 0x20, 0x72, 0x65, 0x70]
    ensures Read32(s, 0) == 0x2065_6874 && Read32(s, 4) == 0x6D61_7073
    ensures Read32(s, 8) == 0x6873_696D && Read32(s, 12) == 0x7065_7220
  {
    hide Load32;
    SecondLoads32();
  }

  lemma SecondLoads32()
    ensures Load32(0x74, 0x68, 0x65, 0x20) == 0x2065_6874
    ensures Load32(0x73, 0x70, 0x61, 0x6D) == 0x6D61_7073
    ensures Load32(0x6D, 0x69, 0x73, 0x68) == 0x6873_696D
    ensures Load32(0x20, 0x72, 0x65, 0x70) == 0x7065_7220
  {
  }

  lemma SecondRounds32()
    ensures Round32(0x046A_700A, 0x2065_6874) == 0x719A_836E
    ensures Round32(0xBFAD_F8E3, 0x6D61_7073) == 0x514C_1DE8
    ensures Round32(0x5B32_B4AA, 0x6873_696D) == 0x97FA_4BA2
    ensures Round32(0x137E_5555, 0x7065_7220) == 0x242A_97A2
  {
  }

  lemma Stripes32()
    ensures Absorb(Xxh32(0), Start32(0), NOBODY) == Lanes(0x719A_836E, 0x514C_1DE8, 0x97FA_4BA2, 0x242A_97A2)
    ensures Left(Xxh32(0), NOBODY) == NOBODY[32..]
  {
    hide Read32, Round32, Absorb, Left;
    var alg, rest := Xxh32(0), NOBODY[16..];
    assert Start32(0) == Lanes(0x2423_4428, 0x85EB_CA77, 0x0000_0000, 0x61C8_864F);
    FirstWords32(NOBODY[..16]);
    FirstRounds32();
    SecondWords32(rest[..16]);
    SecondRounds32();
    assert rest[16..] == NOBODY[32..];
    AbsorbOne(alg, Start32(0), NOBODY);
    AbsorbOne(alg, Lanes(0x046A_700A, 0xBFAD_F8E3, 0x5B32_B4AA, 0x137E_5555), rest);
    AbsorbNone(alg, Lanes(0x719A_836E, 0x514C_1DE8, 0x97FA_4BA2, 0x242A_97A2), NOBODY[32..]);
  }

  lemma Tail32Of(t: Bytes)
    requires t == [0x65, 0x74, 0x69, 0x74, 0x69, 0x6F, 0x6E]
    ensures Tail32(0x8C86_B554, t) == 0xB3A7_011B
  {
    hide Load32, Word32, Byte32, Tail32;
    TailSteps32();
    assert t[0..] == t;
    WordRead32(0x8C86_B554, t, 0);
    ByteRead32(0x09B5_1544, t, 4);
    ByteRead32(0xCDEF_D3C9, t, 5);
    ByteRead32(0x3852_087B, t, 6);
    NothingRead32(0xB3A7_011B, t[7..]);
  }

  lemma TailSteps32()
    ensures Load32(0x65, 0x74, 0x69, 0x74) == 0x7469_7465 && Word32(0x8C86_B554, 0x7469_7465) == 0x09B5_1544
    ensures Byte32(0x09B5_1544, 0x69) == 0xCDEF_D3C9
    ensures Byte32(0xCDEF_D3C9, 0x6F) == 0x3852_087B
    ensures Byte32(0x3852_087B, 0x6E) == 0xB3A7_011B
  {
  }

  lemma LongEnd32()
    ensures Begin32(0, Lanes(0x719A_836E, 0x514C_1DE8, 0x97FA_4BA2, 0x242A_97A2), 39)
            == 0x8C86_B554 && Avalanche32(0xB3A7_011B) == 0xE229_3B2F
  {
    hide Merge32, Length32, Avalanche32;
    Merges32();
    TextLength32();
    LongAvalanche32();
  }

  lemma Merges32()
    ensures Merge32(Lanes(0x719A_836E, 0x514C_1DE8, 0x97FA_4BA2, 0x242A_97A2))
            == 0x8C86_B52D
  {
    hide Rotl32;
    Rotations32();
  }

  lemma Rotations32()
    ensures Rotl32(0x719A_836E, 1) == 0xE335_06DC
    ensures Rotl32(0x514C_1DE8, 7) == 0xA60E_F428
    ensures Rotl32(0x97FA_4BA2, 12) == 0xA4BA_297F
    ensures Rotl32(0x242A_97A2, 18) == 0x5E88_90AA
  {
  }

  lemma TextLength32()
    ensures Length32(39) == 39
  {
  }

  lemma LongAvalanche32()
    ensures Avalanche32(0xB3A7_011B) == 0xE229_3B2F
  {
  }

  lemma ShortEnds32()
    ensures Begin32(0, Start32(0), 0) == 0x1656_67B1 && Avalanche32(0x1656_67B1) == 0x02CC_5D05
    ensures Begin32(0, Start32(0), 1) == 0x1656_67B2 && Byte32(0x1656_67B2, 0x61) == 0x6506_CBE8
    ensures Avalanche32(0x6506_CBE8) == 0x550D_7456
  {
  }

  lemma LongAnswer32()
    ensures Hash(Xxh32(0), NOBODY) == 0xE229_3B2F
  {
    hide Begin32, Avalanche32, Tail32, Start32, Absorb, Left;
    LongEnd32();
    Stripes32();
    Tail32Of(NOBODY[32..]);
  }

  lemma ShortAnswers32(none: Bytes, one: Bytes)
    requires none == [] && one == [0x61]
    ensures Hash(Xxh32(0), none) == 0x02CC_5D05 && Hash(Xxh32(0), one) == 0x550D_7456
  {
    hide Begin32, Avalanche32, Byte32, Tail32, Start32, Absorb, Left;
    var alg := Xxh32(0);
    ShortEnds32();
    AbsorbNone(alg, Start32(0), none);
    AbsorbNone(alg, Start32(0), one);
    NothingRead32(0x1656_67B1, none);
    assert one[0..] == one;
    ByteRead32(0x1656_67B2, one, 0);
    NothingRead32(0x6506_CBE8, one[1..]);
  }

  /** One letter with seed 1, and the start state for it. */
  lemma Seeded32(one: Bytes)
    requires one == [0x61]
    ensures Hash(Xxh32(1), one) == 0xF514_706F
    ensures Start32(1) == Lanes(0x2423_4429, 0x85EB_CA78, 0x0000_0001, 0x61C8_8650)
  {
    hide Begin32, Avalanche32, Byte32, Tail32, Start32, Absorb, Left;
    SeededEnds32();
    AbsorbNone(Xxh32(1), Start32(1), one);
    assert one[0..] == one;
    ByteRead32(0x1656_67B3, one, 0);
    NothingRead32(0x20D4_53E8, one[1..]);
  }

  lemma SeededEnds32()
    ensures Start32(1) == Lanes(0x2423_4429, 0x85EB_CA78, 0x0000_0001, 0x61C8_8650)
    ensures Begin32(1, Start32(1), 1) == 0x1656_67B3 && Byte32(0x1656_67B3, 0x61) == 0x20D4_53E8
    ensures Avalanche32(0x20D4_53E8) == 0xF514_706F
  {
  }

  /** Nothing, one letter, and a text. */
  lemma KnownAnswers32()
    ensures Hash(Xxh32(0), []) == 0x02CC_5D05
    ensures Hash(Xxh32(0), [0x61]) == 0x550D_7456
    ensures Hash(Xxh32(0), NOBODY) == 0xE229_3B2F
    ensures Hash(Xxh32(1), [0x61]) == 0xF514_706F
  {
    hide Hash;
    LongAnswer32();
    ShortAnswers32([], [0x61]);
    Seeded32([0x61]);
  }

  // ---------- XXH64 ----------

  lemma Words64(s: Bytes)
    requires s == [0x43, 0x61, 0x6C, 0x6C, 0x20, 0x6D, 0x65, 0x20, 0x49, 0x73, 0x68, 0x6D, 0x61, 0x65, 0x6C, 0x2E,
                   0x20, 0x53, 0x6F, 0x6D, 0x65, 0x20, 0x79, 0x65, 0x61, 0x72, 0x73, 0x20, 0x61, 0x67, 0x6F, 0x2D]
    ensures Read64(s, 0) == 0x2065_6D20_6C6C_6143 && Read64(s, 8) == 0x2E6C_6561_6D68_7349
    ensures Read64(s, 16) == 0x6579_2065_6D6F_5320 && Read64(s, 24) == 0x2D6F_6761_2073_7261
  {
    hide Load64;
    Loads64();
  }

  lemma Loads64()
    ensures Load64(0x43, 0x61, 0x6C, 0x6C, 0x20, 0x6D, 0x65, 0x20) == 0x2065_6D20_6C6C_6143
    ensures Load64(0x49, 0x73, 0x68, 0x6D, 0x61, 0x65, 0x6C, 0x2E) == 0x2E6C_6561_6D68_7349
    ensures Load64(0x20, 0x53, 0x6F, 0x6D, 0x65, 0x20, 0x79, 0x65) == 0x6579_2065_6D6F_5320
    ensures Load64(0x61, 0x72, 0x73, 0x20, 0x61, 0x67, 0x6F, 0x2D) == 0x2D6F_6761_2073_7261
  {
  }

  lemma Rounds64()
    ensures Round64(0x60EA_27EE_ADC0_B5D6, 0x2065_6D20_6C6C_6143) == 0x670B_8618_B3AA_2200
    ensures Round64(0xC2B2_AE3D_27D4_EB4F, 0x2E6C_6561_6D68_7349) == 0xFC3F_F3C0_203B_C028
    ensures Round64(0x0000_0000_0000_0000, 0x6579_2065_6D6F_5320) == 0x9677_E9E6_6681_D852
    ensures Round64(0x61C8_864E_7A14_3579, 0x2D6F_6761_2073_7261) == 0xDA7D_9AAF_D0C0_2036
  {
  }

  lemma Stripe64Of()
    ensures Absorb(Xxh64(0), Start64(0), ISHMAEL)
            == Lanes(0x670B_8618_B3AA_2200, 0xFC3F_F3C0_203B_C028, 0x9677_E9E6_6681_D852, 0xDA7D_9AAF_D0C0_2036)
    ensures Left(Xxh64(0), ISHMAEL) == ISHMAEL[32..]
  {
    hide Read64, Round64, Absorb, Left;
    var alg := Xxh64(0);
    assert Start64(0) == Lanes(0x60EA_27EE_ADC0_B5D6, 0xC2B2_AE3D_27D4_EB4F, 0x0000_0000_0000_0000, 0x61C8_864E_7A14_3579);
    Words64(ISHMAEL[..32]);
    Rounds64();
    AbsorbOne(alg, Start64(0), ISHMAEL);
    AbsorbNone(alg, Lanes(0x670B_8618_B3AA_2200, 0xFC3F_F3C0_203B_C028, 0x9677_E9E6_6681_D852, 0xDA7D_9AAF_D0C0_2036), ISHMAEL[32..]);
  }

  lemma Tail64Of(t: Bytes)
    requires t == [0x2D, 0x6E, 0x65, 0x76, 0x65, 0x72, 0x20, 0x6D, 0x69, 0x6E, 0x64, 0x20, 0x68, 0x6F, 0x77, 0x20,
                   0x6C, 0x6F, 0x6E, 0x67, 0x20, 0x70, 0x72, 0x65, 0x63, 0x69, 0x73, 0x65, 0x6C, 0x79, 0x2D]
    ensures Tail64(0xB89F_9480_1D16_5F69, t) == 0x7166_E938_EA54_18D0
  {
    hide Load64, Load32, Word64, Half64, Byte64, Tail64;
    TailWords64();
    TailRest64();
    assert t[0..] == t;
    WordRead64(0xB89F_9480_1D16_5F69, t, 0);
    WordRead64(0x0C71_8C0C_F5EC_8337, t, 8);
    WordRead64(0xDDA5_0D58_90EE_F8D0, t, 16);
    HalfRead64(0xE2E4_0EBE_A20F_90FF, t, 24);
    ByteRead64(0x2BCA_5F85_8596_8679, t, 28);
    ByteRead64(0x1658_49E4_4031_C250, t, 29);
    ByteRead64(0x9669_659C_916E_30C9, t, 30);
    NothingRead64(0x7166_E938_EA54_18D0, t[31..]);
  }

  lemma TailWords64()
    ensures Word64(0xB89F_9480_1D16_5F69, Load64(0x2D, 0x6E, 0x65, 0x76, 0x65, 0x72, 0x20, 0x6D)) == 0x0C71_8C0C_F5EC_8337
    ensures Word64(0x0C71_8C0C_F5EC_8337, Load64(0x69, 0x6E, 0x64, 0x20, 0x68, 0x6F, 0x77, 0x20)) == 0xDDA5_0D58_90EE_F8D0
    ensures Word64(0xDDA5_0D58_90EE_F8D0, Load64(0x6C, 0x6F, 0x6E, 0x67, 0x20, 0x70, 0x72, 0x65)) == 0xE2E4_0EBE_A20F_90FF
  {
    TailLoads64();
    hide Load64;
  }

  lemma TailLoads64()
    ensures Load64(0x2D, 0x6E, 0x65, 0x76, 0x65, 0x72, 0x20, 0x6D) == 0x6D20_7265_7665_6E2D
    ensures Load64(0x69, 0x6E, 0x64, 0x20, 0x68, 0x6F, 0x77, 0x20) == 0x2077_6F68_2064_6E69
    ensures Load64(0x6C, 0x6F, 0x6E, 0x67, 0x20, 0x70, 0x72, 0x65) == 0x6572_7020_676E_6F6C
  {
  }

  lemma TailRest64()
    ensures Load32(0x63, 0x69, 0x73, 0x65) == 0x6573_6963 && Half64(0xE2E4_0EBE_A20F_90FF, 0x6573_6963) == 0x2BCA_5F85_8596_8679
    ensures Byte64(0x2BCA_5F85_8596_8679, 0x6C) == 0x1658_49E4_4031_C250
    ensures Byte64(0x1658_49E4_4031_C250, 0x79) == 0x9669_659C_916E_30C9
    ensures Byte64(0x9669_659C_916E_30C9, 0x2D) == 0x7166_E938_EA54_18D0
  {
  }

  lemma LongEnd64()
    ensures Begin64(0, Lanes(0x670B_8618_B3AA_2200, 0xFC3F_F3C0_203B_C028, 0x9677_E9E6_6681_D852, 0xDA7D_9AAF_D0C0_2036), 63)
            == 0xB89F_9480_1D16_5F69 && Avalanche64(0x7166_E938_EA54_18D0) == 0x02A2_E854_70D6_FD96
  {
    hide Merge64, Length64, Avalanche64;
    Merges64();
    TextLength64();
    LongAvalanche64();
  }

  lemma Merges64()
    ensures Merge64(Lanes(0x670B_8618_B3AA_2200, 0xFC3F_F3C0_203B_C028, 0x9677_E9E6_6681_D852, 0xDA7D_9AAF_D0C0_2036))
            == 0xB89F_9480_1D16_5F2A
  {
    hide Rotl64, MergeRound64;
    Rotations64();
    MergeRounds64();
  }

  lemma Rotations64()
    ensures Rotl64(0x670B_8618_B3AA_2200, 1) == 0xCE17_0C31_6754_4400
    ensures Rotl64(0xFC3F_F3C0_203B_C028, 7) == 0x1FF9_E010_1DE0_147E
    ensures Rotl64(0x9677_E9E6_6681_D852, 12) == 0x7E9E_6668_1D85_2967
    ensures Rotl64(0xDA7D_9AAF_D0C0_2036, 18) == 0x6ABF_4300_80DB_69F6
  {
  }

  lemma MergeRounds64()
    ensures MergeRound64(0xD76E_95AA_2394_EBDB, 0x670B_8618_B3AA_2200) == 0xD9CE_CBCF_AB49_C481
    ensures MergeRound64(0xD9CE_CBCF_AB49_C481, 0xFC3F_F3C0_203B_C028) == 0x6EE1_A8BE_E73B_84E1
    ensures MergeRound64(0x6EE1_A8BE_E73B_84E1, 0x9677_E9E6_6681_D852) == 0x96B7_3AAB_55D7_0966
    ensures MergeRound64(0x96B7_3AAB_55D7_0966, 0xDA7D_9AAF_D0C0_2036) == 0xB89F_9480_1D16_5F2A
  {
  }

  lemma TextLength64()
    ensures Length64(63) == 63
  {
  }

  lemma LongAvalanche64()
    ensures Avalanche64(0x7166_E938_EA54_18D0) == 0x02A2_E854_70D6_FD96
  {
  }

  lemma ShortEnds64()
    ensures Begin64(0, Start64(0), 0) == 0x27D4_EB2F_1656_67C5 && Avalanche64(0x27D4_EB2F_1656_67C5) == 0xEF46_DB37_51D8_E999
    ensures Begin64(0, Start64(0), 1) == 0x27D4_EB2F_1656_67C6 && Byte64(0x27D4_EB2F_1656_67C6, 0x61) == 0xB865_97E4_19D4_D215
    ensures Avalanche64(0xB865_97E4_19D4_D215) == 0xD24E_C4F1_A98C_6E5B
  {
  }

  lemma LongAnswer64()
    ensures Hash(Xxh64(0), ISHMAEL) == 0x02A2_E854_70D6_FD96
  {
    hide Begin64, Avalanche64, Tail64, Start64, Absorb, Left;
    LongEnd64();
    Stripe64Of();
    Tail64Of(ISHMAEL[32..]);
  }

  lemma ShortAnswers64(none: Bytes, one: Bytes)
    requires none == [] && one == [0x61]
    ensures Hash(Xxh64(0), none) == 0xEF46_DB37_51D8_E999 && Hash(Xxh64(0), one) == 0xD24E_C4F1_A98C_6E5B
  {
    hide Begin64, Avalanche64, Byte64, Tail64, Start64, Absorb, Left;
    var alg := Xxh64(0);
    ShortEnds64();
    AbsorbNone(alg, Start64(0), none);
    AbsorbNone(alg, Start64(0), one);
    NothingRead64(0x27D4_EB2F_1656_67C5, none);
    assert one[0..] == one;
    ByteRead64(0x27D4_EB2F_1656_67C6, one, 0);
    NothingRead64(0xB865_97E4_19D4_D215, one[1..]);
  }

  /** One letter with seed 1, and the start state for it. */
  lemma Seeded64(one: Bytes)
    requires one == [0x61]
    ensures Hash(Xxh64(1), one) == 0xDEC2_BC81_C3CD_46C6
    ensures Start64(1) == Lanes(0x60EA_27EE_ADC0_B5D7, 0xC2B2_AE3D_27D4_EB50, 0x0000_0000_0000_0001, 0x61C8_864E_7A14_357A)
  {
    hide Begin64, Avalanche64, Byte64, Tail64, Start64, Absorb, Left;
    SeededEnds64();
    AbsorbNone(Xxh64(1), Start64(1), one);
    assert one[0..] == one;
    ByteRead64(0x27D4_EB2F_1656_67C7, one, 0);
    NothingRead64(0xFC98_0BB4_BB80_9A15, one[1..]);
  }

  lemma SeededEnds64()
    ensures Start64(1) == Lanes(0x60EA_27EE_ADC0_B5D7, 0xC2B2_AE3D_27D4_EB50, 0x0000_0000_0000_0001, 0x61C8_864E_7A14_357A)
    ensures Begin64(1, Start64(1), 1) == 0x27D4_EB2F_1656_67C7 && Byte64(0x27D4_EB2F_1656_67C7, 0x61) == 0xFC98_0BB4_BB80_9A15
    ensures Avalanche64(0xFC98_0BB4_BB80_9A15) == 0xDEC2_BC81_C3CD_46C6
  {
  }

  /** Nothing, one letter, and a text. */
  lemma KnownAnswers64()
    ensures Hash(Xxh64(0), []) == 0xEF46_DB37_51D8_E999
    ensures Hash(Xxh64(0), [0x61]) == 0xD24E_C4F1_A98C_6E5B
    ensures Hash(Xxh64(0), ISHMAEL) == 0x02A2_E854_70D6_FD96
    ensures Hash(Xxh64(1), [0x61]) == 0xDEC2_BC81_C3CD_46C6
  {
    hide Hash;
    LongAnswer64();
    ShortAnswers64([], [0x61]);
    Seeded64([0x61]);
  }
}
