/** The worked example of FIPS 180-4: the message "abc", word by word and round by round. */
module Fips180Example {
  import opened Bytes
  import opened Fips180

  /** The message "abc" with its padding. */
  ghost predicate Abc(block: seq<byte>) { |block| == 64 && block == Pad([0x61, 0x62, 0x63]) }

  lemma {:induction false} Words0(block: seq<byte>)
    requires Abc(block)
    ensures W(block, 0) == 0x6162_6380 && W(block, 15) == 0x18 && forall t :: 0 < t < 15 ==> W(block, t) == 0
  {
    Padding(block);
    hide Pad;
    WordAt(block, 0, 0x61, 0x62, 0x63, 0x80);
    assert WordOf(0x61, 0x62, 0x63, 0x80) == 0x6162_6380;
    assert WordOf(0, 0, 0, 0) == 0 && WordOf(0, 0, 0, 0x18) == 0x18;
    forall t | 0 < t < 15 ensures W(block, t) == 0 { WordAt(block, t, 0, 0, 0, 0); }
    WordAt(block, 15, 0, 0, 0, 0x18);
  }

  function WordOf(p: byte, q: byte, r: byte, s: byte): bv32 {
    (Word(p) << 24) | (Word(q) << 16) | (Word(r) << 8) | Word(s)
  }

  lemma {:induction false} WordAt(block: seq<byte>, t: nat, p: byte, q: byte, r: byte, s: byte)
    requires |block| == 64 && t < 16 && block[4 * t..4 * t + 4] == [p, q, r, s]
    ensures W(block, t) == WordOf(p, q, r, s)
  {
    var b := block[4 * t..4 * t + 4];
    assert b[0] == p && b[1] == q && b[2] == r && b[3] == s;
    hide Word;
  }

  lemma Padding(block: seq<byte>)
    requires Abc(block)
    ensures block[0] == 0x61 && block[1] == 0x62 && block[2] == 0x63 && block[3] == 0x80 && block[63] == 0x18
    ensures forall k :: 4 <= k < 63 ==> block[k] == 0
  {
    LengthBytes();
  }

  lemma {:induction false} LengthBytes()
    ensures BigEndian64(24) == Zeros(7) + [0x18]
  {
    forall i: nat | i < 8 ensures BigEndianByte(24, i) == (if i < 7 then 0 else 0x18) {
      PowerIsLarge(7 - i);
      SmallQuotient(Power256(7 - i));
    }
    hide BigEndianByte;
  }

  lemma {:induction false} PowerIsLarge(k: nat)
    ensures Power256(k) == 1 <==> k == 0
    ensures k > 0 ==> Power256(k) >= 0x100
  {}

  lemma SmallQuotient(p: nat)
    requires p == 1 || p >= 0x100
    ensures 24 / p % 0x100 == if p == 1 then 0x18 else 0
  {}

  lemma {:induction false} Later(block: seq<byte>, t: nat, p: bv32, q: bv32, r: bv32, s: bv32, w: bv32)
    requires |block| == 64 && t >= 16
    requires W(block, t - 2) == p && W(block, t - 7) == q && W(block, t - 15) == r && W(block, t - 16) == s
    requires Sum4(SmallSigma1(p), q, SmallSigma0(r), s) == w
    ensures W(block, t) == w
  {
    hide SmallSigma0, SmallSigma1, Sum4, BlockWord;
  }

  lemma {:induction false} Next(block: seq<byte>, t: nat, s: Hash, k: u32, w: bv32, a: bv32, e: bv32) returns (n: Hash)
    requires |block| == 64 && t < 64 && Rounds(INITIAL, block, t) == s && FRACTIONS[t] == k && W(block, t) == w
    requires Round(s, Wide(k), w) == Hash(a, s.a, s.b, s.c, e, s.e, s.f, s.g)
    ensures n == Hash(a, s.a, s.b, s.c, e, s.e, s.f, s.g) && Rounds(INITIAL, block, t + 1) == n
  {
    hide Round, Wide, W, FRACTIONS;
    n := Hash(a, s.a, s.b, s.c, e, s.e, s.f, s.g);
  }

  lemma {:induction false} Words16(block: seq<byte>)
    requires Abc(block)
    ensures W(block, 16) == 0x6162_6380 && W(block, 17) == 0x000f_0000 && W(block, 18) == 0x7da8_6405
    ensures W(block, 19) == 0x6000_03c6 && W(block, 20) == 0x3e9d_7b78 && W(block, 21) == 0x0183_fc00
    ensures W(block, 22) == 0x12dc_bfdb && W(block, 23) == 0xe2e2_c38e
  {
    Words0(block);
    hide W, Abc;
    Later(block, 16, 0x0000_0000, 0x0000_0000, 0x0000_0000, 0x6162_6380, 0x6162_6380);
    Later(block, 17, 0x0000_0018, 0x0000_0000, 0x0000_0000, 0x0000_0000, 0x000f_0000);
    Later(block, 18, 0x6162_6380, 0x0000_0000, 0x0000_0000, 0x0000_0000, 0x7da8_6405);
    Later(block, 19, 0x000f_0000, 0x0000_0000, 0x0000_0000, 0x0000_0000, 0x6000_03c6);
    Later(block, 20, 0x7da8_6405, 0x0000_0000, 0x0000_0000, 0x0000_0000, 0x3e9d_7b78);
    Later(block, 21, 0x6000_03c6, 0x0000_0000, 0x0000_0000, 0x0000_0000, 0x0183_fc00);
    Later(block, 22, 0x3e9d_7b78, 0x0000_0018, 0x0000_0000, 0x0000_0000, 0x12dc_bfdb);
    Later(block, 23, 0x0183_fc00, 0x6162_6380, 0x0000_0000, 0x0000_0000, 0xe2e2_c38e);
  }

  lemma {:induction false} Words24(block: seq<byte>)
    requires Abc(block)
    ensures W(block, 24) == 0xc821_5c1a && W(block, 25) == 0xb736_79a2 && W(block, 26) == 0xe5bc_3909
    ensures W(block, 27) == 0x3266_3c5b && W(block, 28) == 0x9d20_9d67 && W(block, 29) == 0xec87_26cb
    ensures W(block, 30) == 0x7021_38a4 && W(block, 31) == 0xd3b7_973b
  {
    Words16(block);
    Words0(block);
    hide W, Abc;
    Later(block, 24, 0x12dc_bfdb, 0x000f_0000, 0x0000_0000, 0x0000_0000, 0xc821_5c1a);
    Later(block, 25, 0xe2e2_c38e, 0x7da8_6405, 0x0000_0000, 0x0000_0000, 0xb736_79a2);
    Later(block, 26, 0xc821_5c1a, 0x6000_03c6, 0x0000_0000, 0x0000_0000, 0xe5bc_3909);
    Later(block, 27, 0xb736_79a2, 0x3e9d_7b78, 0x0000_0000, 0x0000_0000, 0x3266_3c5b);
    Later(block, 28, 0xe5bc_3909, 0x0183_fc00, 0x0000_0000, 0x0000_0000, 0x9d20_9d67);
    Later(block, 29, 0x3266_3c5b, 0x12dc_bfdb, 0x0000_0000, 0x0000_0000, 0xec87_26cb);
    Later(block, 30, 0x9d20_9d67, 0xe2e2_c38e, 0x0000_0018, 0x0000_0000, 0x7021_38a4);
    Later(block, 31, 0xec87_26cb, 0xc821_5c1a, 0x6162_6380, 0x0000_0018, 0xd3b7_973b);
  }

  lemma {:induction false} Words32(block: seq<byte>)
    requires Abc(block)
    ensures W(block, 32) == 0x93f5_997f && W(block, 33) == 0x3b68_ba73 && W(block, 34) == 0xaff4_ffc1
    ensures W(block, 35) == 0xf10a_5c62 && W(block, 36) == 0x0a8b_3996 && W(block, 37) == 0x72af_830a
    ensures W(block, 38) == 0x9409_e33e && W(block, 39) == 0x2464_1522
  {
    Words16(block);
    Words24(block);
    hide W, Abc;
    Later(block, 32, 0x7021_38a4, 0xb736_79a2, 0x000f_0000, 0x6162_6380, 0x93f5_997f);
    Later(block, 33, 0xd3b7_973b, 0xe5bc_3909, 0x7da8_6405, 0x000f_0000, 0x3b68_ba73);
    Later(block, 34, 0x93f5_997f, 0x3266_3c5b, 0x6000_03c6, 0x7da8_6405, 0xaff4_ffc1);
    Later(block, 35, 0x3b68_ba73, 0x9d20_9d67, 0x3e9d_7b78, 0x6000_03c6, 0xf10a_5c62);
    Later(block, 36, 0xaff4_ffc1, 0xec87_26cb, 0x0183_fc00, 0x3e9d_7b78, 0x0a8b_3996);
    Later(block, 37, 0xf10a_5c62, 0x7021_38a4, 0x12dc_bfdb, 0x0183_fc00, 0x72af_830a);
    Later(block, 38, 0x0a8b_3996, 0xd3b7_973b, 0xe2e2_c38e, 0x12dc_bfdb, 0x9409_e33e);
    Later(block, 39, 0x72af_830a, 0x93f5_997f, 0xc821_5c1a, 0xe2e2_c38e, 0x2464_1522);
  }

  lemma {:induction false} Words40(block: seq<byte>)
    requires Abc(block)
    ensures W(block, 40) == 0x9f47_bf94 && W(block, 41) == 0xf0a6_4f5a && W(block, 42) == 0x3e24_6a79
    ensures W(block, 43) == 0x2733_3ba3 && W(block, 44) == 0x0c47_63f2 && W(block, 45) == 0x840a_bf27
    ensures W(block, 46) == 0x7a29_0d5d && W(block, 47) == 0x065c_43da
  {
    Words24(block);
    Words32(block);
    hide W, Abc;
    Later(block, 40, 0x9409_e33e, 0x3b68_ba73, 0xb736_79a2, 0xc821_5c1a, 0x9f47_bf94);
    Later(block, 41, 0x2464_1522, 0xaff4_ffc1, 0xe5bc_3909, 0xb736_79a2, 0xf0a6_4f5a);
    Later(block, 42, 0x9f47_bf94, 0xf10a_5c62, 0x3266_3c5b, 0xe5bc_3909, 0x3e24_6a79);
    Later(block, 43, 0xf0a6_4f5a, 0x0a8b_3996, 0x9d20_9d67, 0x3266_3c5b, 0x2733_3ba3);
    Later(block, 44, 0x3e24_6a79, 0x72af_830a, 0xec87_26cb, 0x9d20_9d67, 0x0c47_63f2);
    Later(block, 45, 0x2733_3ba3, 0x9409_e33e, 0x7021_38a4, 0xec87_26cb, 0x840a_bf27);
    Later(block, 46, 0x0c47_63f2, 0x2464_1522, 0xd3b7_973b, 0x7021_38a4, 0x7a29_0d5d);
    Later(block, 47, 0x840a_bf27, 0x9f47_bf94, 0x93f5_997f, 0xd3b7_973b, 0x065c_43da);
  }

  lemma {:induction false} Words48(block: seq<byte>)
    requires Abc(block)
    ensures W(block, 48) == 0xfb3e_89cb && W(block, 49) == 0xcc76_17db && W(block, 50) == 0xb9e6_6c34
    ensures W(block, 51) == 0xa999_3667 && W(block, 52) == 0x84ba_dedd && W(block, 53) == 0xc214_62bc
    ensures W(block, 54) == 0x1487_472c && W(block, 55) == 0xb20f_7a99
  {
    Words32(block);
    Words40(block);
    hide W, Abc;
    Later(block, 48, 0x7a29_0d5d, 0xf0a6_4f5a, 0x3b68_ba73, 0x93f5_997f, 0xfb3e_89cb);
    Later(block, 49, 0x065c_43da, 0x3e24_6a79, 0xaff4_ffc1, 0x3b68_ba73, 0xcc76_17db);
    Later(block, 50, 0xfb3e_89cb, 0x2733_3ba3, 0xf10a_5c62, 0xaff4_ffc1, 0xb9e6_6c34);
    Later(block, 51, 0xcc76_17db, 0x0c47_63f2, 0x0a8b_3996, 0xf10a_5c62, 0xa999_3667);
    Later(block, 52, 0xb9e6_6c34, 0x840a_bf27, 0x72af_830a, 0x0a8b_3996, 0x84ba_dedd);
    Later(block, 53, 0xa999_3667, 0x7a29_0d5d, 0x9409_e33e, 0x72af_830a, 0xc214_62bc);
    Later(block, 54, 0x84ba_dedd, 0x065c_43da, 0x2464_1522, 0x9409_e33e, 0x1487_472c);
    Later(block, 55, 0xc214_62bc, 0xfb3e_89cb, 0x9f47_bf94, 0x2464_1522, 0xb20f_7a99);
  }

  lemma {:induction false} Words56(block: seq<byte>)
    requires Abc(block)
    ensures W(block, 56) == 0xef57_b9cd && W(block, 57) == 0xebe6_b238 && W(block, 58) == 0x9fe3_095e
    ensures W(block, 59) == 0x78bc_8d4b && W(block, 60) == 0xa43f_cf15 && W(block, 61) == 0x668b_2ff8
    ensures W(block, 62) == 0xeeab_a2cc && W(block, 63) == 0x12b1_edeb
  {
    Words40(block);
    Words48(block);
    hide W, Abc;
    Later(block, 56, 0x1487_472c, 0xcc76_17db, 0xf0a6_4f5a, 0x9f47_bf94, 0xef57_b9cd);
    Later(block, 57, 0xb20f_7a99, 0xb9e6_6c34, 0x3e24_6a79, 0xf0a6_4f5a, 0xebe6_b238);
    Later(block, 58, 0xef57_b9cd, 0xa999_3667, 0x2733_3ba3, 0x3e24_6a79, 0x9fe3_095e);
    Later(block, 59, 0xebe6_b238, 0x84ba_dedd, 0x0c47_63f2, 0x2733_3ba3, 0x78bc_8d4b);
    Later(block, 60, 0x9fe3_095e, 0xc214_62bc, 0x840a_bf27, 0x0c47_63f2, 0xa43f_cf15);
    Later(block, 61, 0x78bc_8d4b, 0x1487_472c, 0x7a29_0d5d, 0x840a_bf27, 0x668b_2ff8);
    Later(block, 62, 0xa43f_cf15, 0xb20f_7a99, 0x065c_43da, 0x7a29_0d5d, 0xeeab_a2cc);
    Later(block, 63, 0x668b_2ff8, 0xef57_b9cd, 0xfb3e_89cb, 0x065c_43da, 0x12b1_edeb);
  }

  lemma {:induction false} Rounds8(block: seq<byte>)
    requires Abc(block)
    ensures Rounds(INITIAL, block, 8) ==
      Hash(0x85a0_7b5f, 0xe503_0380, 0x2b42_09f5, 0x0440_9a6a, 0x0c65_7a79, 0x9b27_a401, 0x7142_60ad, 0x43ad_a245)
  {
    Words0(block);
    assert Rounds(INITIAL, block, 0) == INITIAL;
    Constants0();
    InitialWords();
    hide W, Abc, Rounds, FRACTIONS, INITIAL;
    var s := Hash(0x6a09_e667, 0xbb67_ae85, 0x3c6e_f372, 0xa54f_f53a, 0x510e_527f, 0x9b05_688c, 0x1f83_d9ab,
      0x5be0_cd19);
    s := Next(block, 0, s, 0x428a_2f98, 0x6162_6380, 0x5d6a_ebcd, 0xfa2a_4622);
    s := Next(block, 1, s, 0x7137_4491, 0x0000_0000, 0x5a6a_d9ad, 0x78ce_7989);
    s := Next(block, 2, s, 0xb5c0_fbcf, 0x0000_0000, 0xc8c3_47a7, 0xf929_39eb);
    s := Next(block, 3, s, 0xe9b5_dba5, 0x0000_0000, 0xd550_f666, 0x24e0_0850);
    s := Next(block, 4, s, 0x3956_c25b, 0x0000_0000, 0x0440_9a6a, 0x43ad_a245);
    s := Next(block, 5, s, 0x59f1_11f1, 0x0000_0000, 0x2b42_09f5, 0x7142_60ad);
    s := Next(block, 6, s, 0x923f_82a4, 0x0000_0000, 0xe503_0380, 0x9b27_a401);
    s := Next(block, 7, s, 0xab1c_5ed5, 0x0000_0000, 0x85a0_7b5f, 0x0c65_7a79);
  }

  lemma Constants0()
    ensures FRACTIONS[0] == 0x428a_2f98 && FRACTIONS[1] == 0x7137_4491 && FRACTIONS[2] == 0xb5c0_fbcf
    ensures FRACTIONS[3] == 0xe9b5_dba5 && FRACTIONS[4] == 0x3956_c25b && FRACTIONS[5] == 0x59f1_11f1
    ensures FRACTIONS[6] == 0x923f_82a4 && FRACTIONS[7] == 0xab1c_5ed5
  {}

  lemma {:induction false} Rounds16(block: seq<byte>)
    requires Abc(block)
    ensures Rounds(INITIAL, block, 16) ==
      Hash(0xb0fa_238e, 0xc064_5fde, 0xd932_eb16, 0x8791_2990, 0x0759_0dcd, 0x0b92_f20c, 0x745a_48de, 0x1e57_8218)
  {
    Rounds8(block);
    Words0(block);
    Constants8();
    hide W, Abc, Rounds, FRACTIONS;
    var s := Hash(0x85a0_7b5f, 0xe503_0380, 0x2b42_09f5, 0x0440_9a6a, 0x0c65_7a79, 0x9b27_a401, 0x7142_60ad,
      0x43ad_a245);
    s := Next(block, 8, s, 0xd807_aa98, 0x0000_0000, 0x8e04_ecb9, 0x32ca_2d8c);
    s := Next(block, 9, s, 0x1283_5b01, 0x0000_0000, 0x8c87_346b, 0x1cc9_2596);
    s := Next(block, 10, s, 0x2431_85be, 0x0000_0000, 0x4798_a3f4, 0x436b_23e8);
    s := Next(block, 11, s, 0x550c_7dc3, 0x0000_0000, 0xf71f_c5a9, 0x816f_d6e9);
    s := Next(block, 12, s, 0x72be_5d74, 0x0000_0000, 0x8791_2990, 0x1e57_8218);
    s := Next(block, 13, s, 0x80de_b1fe, 0x0000_0000, 0xd932_eb16, 0x745a_48de);
    s := Next(block, 14, s, 0x9bdc_06a7, 0x0000_0000, 0xc064_5fde, 0x0b92_f20c);
    s := Next(block, 15, s, 0xc19b_f174, 0x0000_0018, 0xb0fa_238e, 0x0759_0dcd);
  }

  lemma Constants8()
    ensures FRACTIONS[8] == 0xd807_aa98 && FRACTIONS[9] == 0x1283_5b01 && FRACTIONS[10] == 0x2431_85be
    ensures FRACTIONS[11] == 0x550c_7dc3 && FRACTIONS[12] == 0x72be_5d74 && FRACTIONS[13] == 0x80de_b1fe
    ensures FRACTIONS[14] == 0x9bdc_06a7 && FRACTIONS[15] == 0xc19b_f174
  {}

  lemma {:induction false} Rounds24(block: seq<byte>)
    requires Abc(block)
    ensures Rounds(INITIAL, block, 24) ==
      Hash(0xc5d5_3d8d, 0xa7a3_623f, 0xc260_6d6d, 0x9dc6_8b63, 0xaa47_c347, 0x49f5_114a, 0xe125_7970, 0x8ada_8930)
  {
    Rounds16(block);
    Words16(block);
    Constants16();
    hide W, Abc, Rounds, FRACTIONS;
    var s := Hash(0xb0fa_238e, 0xc064_5fde, 0xd932_eb16, 0x8791_2990, 0x0759_0dcd, 0x0b92_f20c, 0x745a_48de,
      0x1e57_8218);
    s := Next(block, 16, s, 0xe49b_69c1, 0x6162_6380, 0x21da_9a9b, 0x8034_229c);
    s := Next(block, 17, s, 0xefbe_4786, 0x000f_0000, 0xc2fb_d9d1, 0x846e_e454);
    s := Next(block, 18, s, 0x0fc1_9dc6, 0x7da8_6405, 0xfe77_7bbf, 0xcc89_9961);
    s := Next(block, 19, s, 0x240c_a1cc, 0x6000_03c6, 0xe1f2_0c33, 0xb063_8179);
    s := Next(block, 20, s, 0x2de9_2c6f, 0x3e9d_7b78, 0x9dc6_8b63, 0x8ada_8930);
    s := Next(block, 21, s, 0x4a74_84aa, 0x0183_fc00, 0xc260_6d6d, 0xe125_7970);
    s := Next(block, 22, s, 0x5cb0_a9dc, 0x12dc_bfdb, 0xa7a3_623f, 0x49f5_114a);
    s := Next(block, 23, s, 0x76f9_88da, 0xe2e2_c38e, 0xc5d5_3d8d, 0xaa47_c347);
  }

  lemma Constants16()
    ensures FRACTIONS[16] == 0xe49b_69c1 && FRACTIONS[17] == 0xefbe_4786 && FRACTIONS[18] == 0x0fc1_9dc6
    ensures FRACTIONS[19] == 0x240c_a1cc && FRACTIONS[20] == 0x2de9_2c6f && FRACTIONS[21] == 0x4a74_84aa
    ensures FRACTIONS[22] == 0x5cb0_a9dc && FRACTIONS[23] == 0x76f9_88da
  {}

  lemma {:induction false} Rounds32(block: seq<byte>)
    requires Abc(block)
    ensures Rounds(INITIAL, block, 32) ==
      Hash(0x73b3_3bf5, 0xea99_2a22, 0xa006_0b30, 0x3634_82c9, 0xba59_1112, 0x0109_ab3a, 0xade7_9437, 0x6112_a3b7)
  {
    Rounds24(block);
    Words24(block);
    Constants24();
    hide W, Abc, Rounds, FRACTIONS;
    var s := Hash(0xc5d5_3d8d, 0xa7a3_623f, 0xc260_6d6d, 0x9dc6_8b63, 0xaa47_c347, 0x49f5_114a, 0xe125_7970,
      0x8ada_8930);
    s := Next(block, 24, s, 0x983e_5152, 0xc821_5c1a, 0x1c2c_2838, 0x2823_ef91);
    s := Next(block, 25, s, 0xa831_c66d, 0xb736_79a2, 0xcde8_037d, 0x1438_3d8e);
    s := Next(block, 26, s, 0xb003_27c8, 0xe5bc_3909, 0xb62e_c4bc, 0xc74c_6516);
    s := Next(block, 27, s, 0xbf59_7fc7, 0x3266_3c5b, 0x77d3_7528, 0xedff_bff8);
    s := Next(block, 28, s, 0xc6e0_0bf3, 0x9d20_9d67, 0x3634_82c9, 0x6112_a3b7);
    s := Next(block, 29, s, 0xd5a7_9147, 0xec87_26cb, 0xa006_0b30, 0xade7_9437);
    s := Next(block, 30, s, 0x06ca_6351, 0x7021_38a4, 0xea99_2a22, 0x0109_ab3a);
    s := Next(block, 31, s, 0x1429_2967, 0xd3b7_973b, 0x73b3_3bf5, 0xba59_1112);
  }

  lemma Constants24()
    ensures FRACTIONS[24] == 0x983e_5152 && FRACTIONS[25] == 0xa831_c66d && FRACTIONS[26] == 0xb003_27c8
    ensures FRACTIONS[27] == 0xbf59_7fc7 && FRACTIONS[28] == 0xc6e0_0bf3 && FRACTIONS[29] == 0xd5a7_9147
    ensures FRACTIONS[30] == 0x06ca_6351 && FRACTIONS[31] == 0x1429_2967
  {}

  lemma {:induction false} Rounds40(block: seq<byte>)
    requires Abc(block)
    ensures Rounds(INITIAL, block, 40) ==
      Hash(0x79ea_687a, 0x6dc5_7a8a, 0x34df_1604, 0x41a6_5cb1, 0x1efb_c0a0, 0xf078_1bc8, 0xa507_a53d, 0x0772_a26b)
  {
    Rounds32(block);
    Words32(block);
    Constants32();
    hide W, Abc, Rounds, FRACTIONS;
    var s := Hash(0x73b3_3bf5, 0xea99_2a22, 0xa006_0b30, 0x3634_82c9, 0xba59_1112, 0x0109_ab3a, 0xade7_9437,
      0x6112_a3b7);
    s := Next(block, 32, s, 0x27b7_0a85, 0x93f5_997f, 0x98e1_2507, 0x9cd9_f5f6);
    s := Next(block, 33, s, 0x2e1b_2138, 0x3b68_ba73, 0xfe60_4df5, 0x5924_9dd3);
    s := Next(block, 34, s, 0x4d2c_6dfc, 0xaff4_ffc1, 0xa9a7_738c, 0x085f_3833);
    s := Next(block, 35, s, 0x5338_0d13, 0xf10a_5c62, 0x65a0_cfe4, 0xf4b0_02d6);
    s := Next(block, 36, s, 0x650a_7354, 0x0a8b_3996, 0x41a6_5cb1, 0x0772_a26b);
    s := Next(block, 37, s, 0x766a_0abb, 0x72af_830a, 0x34df_1604, 0xa507_a53d);
    s := Next(block, 38, s, 0x81c2_c92e, 0x9409_e33e, 0x6dc5_7a8a, 0xf078_1bc8);
    s := Next(block, 39, s, 0x9272_2c85, 0x2464_1522, 0x79ea_687a, 0x1efb_c0a0);
  }

  lemma Constants32()
    ensures FRACTIONS[32] == 0x27b7_0a85 && FRACTIONS[33] == 0x2e1b_2138 && FRACTIONS[34] == 0x4d2c_6dfc
    ensures FRACTIONS[35] == 0x5338_0d13 && FRACTIONS[36] == 0x650a_7354 && FRACTIONS[37] == 0x766a_0abb
    ensures FRACTIONS[38] == 0x81c2_c92e && FRACTIONS[39] == 0x9272_2c85
  {}

  lemma {:induction false} Rounds48(block: seq<byte>)
    requires Abc(block)
    ensures Rounds(INITIAL, block, 48) ==
      Hash(0x4172_328d, 0xa14c_14b0, 0x72ab_4b91, 0x2662_8815, 0xfecf_0bc6, 0xd57b_94a9, 0xb775_5da1, 0xa80f_11f0)
  {
    Rounds40(block);
    Words40(block);
    Constants40();
    hide W, Abc, Rounds, FRACTIONS;
    var s := Hash(0x79ea_687a, 0x6dc5_7a8a, 0x34df_1604, 0x41a6_5cb1, 0x1efb_c0a0, 0xf078_1bc8, 0xa507_a53d,
      0x0772_a26b);
    s := Next(block, 40, s, 0xa2bf_e8a1, 0x9f47_bf94, 0xd667_0766, 0x2635_2d63);
    s := Next(block, 41, s, 0xa81a_664b, 0xf0a6_4f5a, 0xdf46_652f, 0x838b_2711);
    s := Next(block, 42, s, 0xc24b_8b70, 0x3e24_6a79, 0x17aa_0dfe, 0xdecd_4715);
    s := Next(block, 43, s, 0xc76c_51a3, 0x2733_3ba3, 0x9d4b_af93, 0xfda2_4c2e);
    s := Next(block, 44, s, 0xd192_e819, 0x0c47_63f2, 0x2662_8815, 0xa80f_11f0);
    s := Next(block, 45, s, 0xd699_0624, 0x840a_bf27, 0x72ab_4b91, 0xb775_5da1);
    s := Next(block, 46, s, 0xf40e_3585, 0x7a29_0d5d, 0xa14c_14b0, 0xd57b_94a9);
    s := Next(block, 47, s, 0x106a_a070, 0x065c_43da, 0x4172_328d, 0xfecf_0bc6);
  }

  lemma Constants40()
    ensures FRACTIONS[40] == 0xa2bf_e8a1 && FRACTIONS[41] == 0xa81a_664b && FRACTIONS[42] == 0xc24b_8b70
    ensures FRACTIONS[43] == 0xc76c_51a3 && FRACTIONS[44] == 0xd192_e819 && FRACTIONS[45] == 0xd699_0624
    ensures FRACTIONS[46] == 0xf40e_3585 && FRACTIONS[47] == 0x106a_a070
  {}

  lemma {:induction false} Rounds56(block: seq<byte>)
    requires Abc(block)
    ensures Rounds(INITIAL, block, 56) ==
      Hash(0x38cc_9913, 0x3ec4_5cdb, 0xf570_2fdb, 0x101f_d28f, 0x54cb_266b, 0xe50e_1b4f, 0x9f47_87c3, 0x529e_7d00)
  {
    Rounds48(block);
    Words48(block);
    Constants48();
    hide W, Abc, Rounds, FRACTIONS;
    var s := Hash(0x4172_328d, 0xa14c_14b0, 0x72ab_4b91, 0x2662_8815, 0xfecf_0bc6, 0xd57b_94a9, 0xb775_5da1,
      0xa80f_11f0);
    s := Next(block, 48, s, 0x19a4_c116, 0xfb3e_89cb, 0x0575_7ceb, 0xbd71_4038);
    s := Next(block, 49, s, 0x1e37_6c08, 0xcc76_17db, 0xf11b_faa8, 0x6e5c_390c);
    s := Next(block, 50, s, 0x2748_774c, 0xb9e6_6c34, 0x7a05_08a1, 0x52f1_ccf7);
    s := Next(block, 51, s, 0x34b0_bcb5, 0xa999_3667, 0x886e_7a22, 0x4923_1c1e);
    s := Next(block, 52, s, 0x391c_0cb3, 0x84ba_dedd, 0x101f_d28f, 0x529e_7d00);
    s := Next(block, 53, s, 0x4ed8_aa4a, 0xc214_62bc, 0xf570_2fdb, 0x9f47_87c3);
    s := Next(block, 54, s, 0x5b9c_ca4f, 0x1487_472c, 0x3ec4_5cdb, 0xe50e_1b4f);
    s := Next(block, 55, s, 0x682e_6ff3, 0xb20f_7a99, 0x38cc_9913, 0x54cb_266b);
  }

  lemma Constants48()
    ensures FRACTIONS[48] == 0x19a4_c116 && FRACTIONS[49] == 0x1e37_6c08 && FRACTIONS[50] == 0x2748_774c
    ensures FRACTIONS[51] == 0x34b0_bcb5 && FRACTIONS[52] == 0x391c_0cb3 && FRACTIONS[53] == 0x4ed8_aa4a
    ensures FRACTIONS[54] == 0x5b9c_ca4f && FRACTIONS[55] == 0x682e_6ff3
  {}

  lemma {:induction false} Rounds64(block: seq<byte>)
    requires Abc(block)
    ensures Rounds(INITIAL, block, 64) ==
      Hash(0x506e_3058, 0xd39a_2165, 0x04d2_4d6c, 0xb85e_2ce9, 0x5ef5_0f24, 0xfb12_1210, 0x948d_25b6, 0x961f_4894)
  {
    Rounds56(block);
    Words56(block);
    Constants56();
    hide W, Abc, Rounds, FRACTIONS;
    var s := Hash(0x38cc_9913, 0x3ec4_5cdb, 0xf570_2fdb, 0x101f_d28f, 0x54cb_266b, 0xe50e_1b4f, 0x9f47_87c3,
      0x529e_7d00);
    s := Next(block, 56, s, 0x748f_82ee, 0xef57_b9cd, 0xfcd1_887b, 0x9b5e_906c);
    s := Next(block, 57, s, 0x78a5_636f, 0xebe6_b238, 0xc062_d46f, 0x7e44_008e);
    s := Next(block, 58, s, 0x84c8_7814, 0x9fe3_095e, 0xffb7_0472, 0x6d83_bfc6);
    s := Next(block, 59, s, 0x8cc7_0208, 0x78bc_8d4b, 0xb6ae_8fff, 0xb21b_ad3d);
    s := Next(block, 60, s, 0x90be_fffa, 0xa43f_cf15, 0xb85e_2ce9, 0x961f_4894);
    s := Next(block, 61, s, 0xa450_6ceb, 0x668b_2ff8, 0x04d2_4d6c, 0x948d_25b6);
    s := Next(block, 62, s, 0xbef9_a3f7, 0xeeab_a2cc, 0xd39a_2165, 0xfb12_1210);
    s := Next(block, 63, s, 0xc671_78f2, 0x12b1_edeb, 0x506e_3058, 0x5ef5_0f24);
  }

  lemma Constants56()
    ensures FRACTIONS[56] == 0x748f_82ee && FRACTIONS[57] == 0x78a5_636f && FRACTIONS[58] == 0x84c8_7814
    ensures FRACTIONS[59] == 0x8cc7_0208 && FRACTIONS[60] == 0x90be_fffa && FRACTIONS[61] == 0xa450_6ceb
    ensures FRACTIONS[62] == 0xbef9_a3f7 && FRACTIONS[63] == 0xc671_78f2
  {}

  lemma WordBytesAre(x: bv32, p: byte, q: byte, r: byte, s: byte)
    requires (x >> 24) & 0xff == Word(p) && (x >> 16) & 0xff == Word(q) && (x >> 8) & 0xff == Word(r)
    requires x & 0xff == Word(s)
    ensures WordBytes(x) == [p, q, r, s]
  {
    WordByteIs(x, 24, p);
    WordByteIs(x, 16, q);
    WordByteIs(x, 8, r);
    WordByteIs(x, 0, s);
    hide WordByte, Word;
  }

  lemma WordByteIs(x: bv32, shift: bv5, b: byte)
    requires (x >> shift) & 0xff == Word(b)
    ensures WordByte(x, shift) == b
  {
    Narrow(Bits(b));
    ValBits(b);
    hide Bits, Val;
  }

  lemma Narrow(b: bv8)
    ensures (b as bv32) as bv8 == b
  {}

  lemma {:induction false} DigestIs(s: Hash)
    ensures Digest(s) == WordBytes(s.a) + WordBytes(s.b) + WordBytes(s.c) + WordBytes(s.d)
      + WordBytes(s.e) + WordBytes(s.f) + WordBytes(s.g) + WordBytes(s.h)
  {
    var words := HashWords(s);
    NothingJoined();
    hide WordBytes, JoinWords;
    assert words[..8] == words;
    assert words[..0] == [];
    JoinNext(words, 0);
    JoinNext(words, 1);
    JoinNext(words, 2);
    JoinNext(words, 3);
    JoinNext(words, 4);
    JoinNext(words, 5);
    JoinNext(words, 6);
    JoinNext(words, 7);
  }

  lemma NothingJoined()
    ensures JoinWords([]) == []
  {}

  lemma {:induction false} JoinNext(words: seq<bv32>, k: nat)
    requires k < |words|
    ensures JoinWords(words[..k + 1]) == JoinWords(words[..k]) + WordBytes(words[k])
  {
    hide WordBytes;
    assert words[..k + 1][..k] == words[..k];
  }

  lemma InitialWords()
    ensures INITIAL == Hash(
      0x6a09_e667, 0xbb67_ae85, 0x3c6e_f372, 0xa54f_f53a, 0x510e_527f, 0x9b05_688c, 0x1f83_d9ab, 0x5be0_cd19)
  {
    WideWords();
    InitialNumbers();
    hide Wide, INITIAL_WORDS;
  }

  lemma InitialNumbers()
    ensures INITIAL_WORDS[0] == 0x6a09_e667 && INITIAL_WORDS[1] == 0xbb67_ae85 && INITIAL_WORDS[2] == 0x3c6e_f372
    ensures INITIAL_WORDS[3] == 0xa54f_f53a && INITIAL_WORDS[4] == 0x510e_527f && INITIAL_WORDS[5] == 0x9b05_688c
    ensures INITIAL_WORDS[6] == 0x1f83_d9ab && INITIAL_WORDS[7] == 0x5be0_cd19
  {}

  lemma WideWords()
    ensures Wide(0x6a09_e667) == 0x6a09_e667 && Wide(0xbb67_ae85) == 0xbb67_ae85 && Wide(0x3c6e_f372) == 0x3c6e_f372
    ensures Wide(0xa54f_f53a) == 0xa54f_f53a && Wide(0x510e_527f) == 0x510e_527f && Wide(0x9b05_688c) == 0x9b05_688c
    ensures Wide(0x1f83_d9ab) == 0x1f83_d9ab && Wide(0x5be0_cd19) == 0x5be0_cd19
  {}

  lemma LastSum(s: Hash, t: Hash)
    requires s == Hash(0x6a09_e667, 0xbb67_ae85, 0x3c6e_f372, 0xa54f_f53a, 0x510e_527f, 0x9b05_688c, 0x1f83_d9ab,
      0x5be0_cd19)
    requires t == Hash(0x506e_3058, 0xd39a_2165, 0x04d2_4d6c, 0xb85e_2ce9, 0x5ef5_0f24, 0xfb12_1210, 0x948d_25b6,
      0x961f_4894)
    ensures Add(s, t) == Hash(0xba78_16bf, 0x8f01_cfea, 0x4141_40de, 0x5dae_2223, 0xb003_61a3, 0x9617_7a9c,
      0xb410_ff61, 0xf200_15ad)
  {}

  lemma {:induction false} FinalState(block: seq<byte>)
    requires Abc(block)
    ensures HashBlocks(block, 1) ==
      Hash(0xba78_16bf, 0x8f01_cfea, 0x4141_40de, 0x5dae_2223, 0xb003_61a3, 0x9617_7a9c, 0xb410_ff61, 0xf200_15ad)
  {
    Rounds64(block);
    InitialWords();
    LastSum(INITIAL, Rounds(INITIAL, block, 64));
    OneBlock(block);
    hide Abc, Rounds, Add, INITIAL, HashBlocks;
  }

  lemma {:induction false} OneBlock(block: seq<byte>)
    requires |block| == 64
    ensures HashBlocks(block, 1) == Add(INITIAL, Rounds(INITIAL, block, 64))
  {
    hide Rounds, Add, INITIAL;
    assert HashBlocks(block, 0) == INITIAL;
    assert Block(block, 0) == block;
  }

  /** FIPS 180-4 gives this digest for "abc". */
  lemma DigestOfAbc()
    ensures Sha256([0x61, 0x62, 0x63]) ==
      [0xba, 0x78, 0x16, 0xbf] + [0x8f, 0x01, 0xcf, 0xea] + [0x41, 0x41, 0x40, 0xde] + [0x5d, 0xae, 0x22, 0x23]
      + [0xb0, 0x03, 0x61, 0xa3] + [0x96, 0x17, 0x7a, 0x9c] + [0xb4, 0x10, 0xff, 0x61] + [0xf2, 0x00, 0x15, 0xad]
  {
    hide *;
    OneBlockOnly();
    var block := Pad([0x61, 0x62, 0x63]);
    FinalState(block);
    DigestIs(HashBlocks(block, 1));
    DigestBytes();
  }

  lemma OneBlockOnly()
    ensures Abc(Pad([0x61, 0x62, 0x63]))
    ensures Sha256([0x61, 0x62, 0x63]) == Digest(HashBlocks(Pad([0x61, 0x62, 0x63]), 1))
  {
    hide HashBlocks, Digest, BigEndian64;
  }

  lemma DigestBytes()
    ensures WordBytes(0xba78_16bf) == [0xba, 0x78, 0x16, 0xbf]
    ensures WordBytes(0x8f01_cfea) == [0x8f, 0x01, 0xcf, 0xea]
    ensures WordBytes(0x4141_40de) == [0x41, 0x41, 0x40, 0xde]
    ensures WordBytes(0x5dae_2223) == [0x5d, 0xae, 0x22, 0x23]
    ensures WordBytes(0xb003_61a3) == [0xb0, 0x03, 0x61, 0xa3]
    ensures WordBytes(0x9617_7a9c) == [0x96, 0x17, 0x7a, 0x9c]
    ensures WordBytes(0xb410_ff61) == [0xb4, 0x10, 0xff, 0x61]
    ensures WordBytes(0xf200_15ad) == [0xf2, 0x00, 0x15, 0xad]
  {
    WordBytesAre(0xba78_16bf, 0xba, 0x78, 0x16, 0xbf);
    WordBytesAre(0x8f01_cfea, 0x8f, 0x01, 0xcf, 0xea);
    WordBytesAre(0x4141_40de, 0x41, 0x41, 0x40, 0xde);
    WordBytesAre(0x5dae_2223, 0x5d, 0xae, 0x22, 0x23);
    WordBytesAre(0xb003_61a3, 0xb0, 0x03, 0x61, 0xa3);
    WordBytesAre(0x9617_7a9c, 0x96, 0x17, 0x7a, 0x9c);
    WordBytesAre(0xb410_ff61, 0xb4, 0x10, 0xff, 0x61);
    WordBytesAre(0xf200_15ad, 0xf2, 0x00, 0x15, 0xad);
  }
}
