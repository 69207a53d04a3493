/**
 The first test vector of SHA-1 (section 7.3 of RFC 3174), derived step by step from
 the definition: the hash of "abc".
 */
module Sha1Example {
  import opened Sha1Definition
  import opened Sha1Transform
  import opened Sha1Stream

  /** The padded message as one block. */
  function Block(): (m: seq<Word>)
    ensures |m| == 16
  {
    [0x61626380, 0, 0, 0, 0, 0, 0, 0, 0, 0, 0, 0, 0, 0, 0, 24]
  }

  /** Word t of the schedule, from the four words it is made of. */
  lemma NextWord(m: seq<Word>, t: nat, w3: Word, w8: Word, w14: Word, w16: Word, w: Word)
    requires |m| == 16 && t >= 16 && w == Rotl(Xor(w3, w8, w14, w16), 1)
    requires Schedule(m, t - 3) == w3 && Schedule(m, t - 8) == w8 && Schedule(m, t - 14) == w14 && Schedule(m, t - 16) == w16
    ensures Schedule(m, t) == w
  {
  }

  /** One step, from the registers before it, the word it uses, and the two new values. */
  lemma NextStep(h: Hash, m: seq<Word>, t: nat, a: Word, b: Word, c: Word, d: Word, e: Word, w: Word, a': Word, c': Word)
    requires |m| == 16 && At(h, m, t, a, b, c, d, e) && Schedule(m, t) == w
    requires a' == AddAll(Rotl(a, 5), F(t, b, c, d), e, K(t), w) && c' == Rotl(b, 30)
    ensures At(h, m, t + 1, a', a, c', c, d)
  {
    StepIsRound(h, m, t, a, b, c, d, e);
  }

  predicate Words0(m: seq<Word>)
    requires |m| == 16
  {
    && Schedule(m, 0) == 0x61626380 && Schedule(m, 1) == 0x00000000 && Schedule(m, 2) == 0x00000000 && Schedule(m, 3) == 0x00000000
    && Schedule(m, 4) == 0x00000000 && Schedule(m, 5) == 0x00000000 && Schedule(m, 6) == 0x00000000 && Schedule(m, 7) == 0x00000000
    && Schedule(m, 8) == 0x00000000 && Schedule(m, 9) == 0x00000000 && Schedule(m, 10) == 0x00000000 && Schedule(m, 11) == 0x00000000
    && Schedule(m, 12) == 0x00000000 && Schedule(m, 13) == 0x00000000 && Schedule(m, 14) == 0x00000000 && Schedule(m, 15) == 0x00000018
  }

  predicate Words16(m: seq<Word>)
    requires |m| == 16
  {
    && Schedule(m, 16) == 0xc2c4c700 && Schedule(m, 17) == 0x00000000 && Schedule(m, 18) == 0x00000030 && Schedule(m, 19) == 0x85898e01
    && Schedule(m, 20) == 0x00000000 && Schedule(m, 21) == 0x00000060 && Schedule(m, 22) == 0x0b131c03 && Schedule(m, 23) == 0x00000030
    && Schedule(m, 24) == 0x85898ec1 && Schedule(m, 25) == 0x16263806 && Schedule(m, 26) == 0x00000000 && Schedule(m, 27) == 0x00000180
    && Schedule(m, 28) == 0x2c4c700c && Schedule(m, 29) == 0x000000f0 && Schedule(m, 30) == 0x93afb507 && Schedule(m, 31) == 0x5898e048
  }

  predicate Words32(m: seq<Word>)
    requires |m| == 16
  {
    && Schedule(m, 32) == 0x8e9a9202 && Schedule(m, 33) == 0x00000600 && Schedule(m, 34) == 0xb131c0f0 && Schedule(m, 35) == 0x16263bc6
    && Schedule(m, 36) == 0x4ebed41e && Schedule(m, 37) == 0x626380a1 && Schedule(m, 38) == 0x16263806 && Schedule(m, 39) == 0x000018c0
    && Schedule(m, 40) == 0xd2e138c4 && Schedule(m, 41) == 0x00000f00 && Schedule(m, 42) == 0x3afb5079 && Schedule(m, 43) == 0x898e04e5
    && Schedule(m, 44) == 0xe2ba3c2b && Schedule(m, 45) == 0x000060c0 && Schedule(m, 46) == 0x053a37cd && Schedule(m, 47) == 0x74458547
  }

  predicate Words48(m: seq<Word>)
    requires |m| == 16
  {
    && Schedule(m, 48) == 0xda9415ed && Schedule(m, 49) == 0x26380a16 && Schedule(m, 50) == 0x626383a1 && Schedule(m, 51) == 0x4ebf54de
    && Schedule(m, 52) == 0x3835b44b && Schedule(m, 53) == 0x0000f600 && Schedule(m, 54) == 0x1e84c7a3 && Schedule(m, 55) == 0x98e04d98
    && Schedule(m, 56) == 0x651d16a0 && Schedule(m, 57) == 0x62658ca1 && Schedule(m, 58) == 0x458544d6 && Schedule(m, 59) == 0x44584cb7
    && Schedule(m, 60) == 0x7ba06619 && Schedule(m, 61) == 0x6380aea2 && Schedule(m, 62) == 0x0ae55269 && Schedule(m, 63) == 0x627b49a1
  }

  predicate Words64(m: seq<Word>)
    requires |m| == 16
  {
    && Schedule(m, 64) == 0x7cd45c9d && Schedule(m, 65) == 0x000f0000 && Schedule(m, 66) == 0xfb50753a && Schedule(m, 67) == 0xec6765e8
    && Schedule(m, 68) == 0xba3c2be2 && Schedule(m, 69) == 0x0060c000 && Schedule(m, 70) == 0x3a37cd05 && Schedule(m, 71) == 0x458546f4
    && Schedule(m, 72) == 0xb8599dd6 && Schedule(m, 73) == 0x380a1a26 && Schedule(m, 74) == 0x01e02203 && Schedule(m, 75) == 0xe7cc3456
    && Schedule(m, 76) == 0xe6e60b69 && Schedule(m, 77) == 0x00f60a00 && Schedule(m, 78) == 0x5795ef4f && Schedule(m, 79) == 0x822e0879
  }

  lemma BlockWords(m: seq<Word>)
    requires m == Block()
    ensures Words0(m)
  {
  }

  lemma WordsFrom16(m: seq<Word>)
    requires |m| == 16 && Words0(m)
    ensures Words16(m)
  {
    hide Schedule;
    NextWord(m, 16, 0x00000000, 0x00000000, 0x00000000, 0x61626380, 0xc2c4c700);
    NextWord(m, 17, 0x00000000, 0x00000000, 0x00000000, 0x00000000, 0x00000000);
    NextWord(m, 18, 0x00000018, 0x00000000, 0x00000000, 0x00000000, 0x00000030);
    NextWord(m, 19, 0xc2c4c700, 0x00000000, 0x00000000, 0x00000000, 0x85898e01);
    NextWord(m, 20, 0x00000000, 0x00000000, 0x00000000, 0x00000000, 0x00000000);
    NextWord(m, 21, 0x00000030, 0x00000000, 0x00000000, 0x00000000, 0x00000060);
    NextWord(m, 22, 0x85898e01, 0x00000000, 0x00000000, 0x00000000, 0x0b131c03);
    NextWord(m, 23, 0x00000000, 0x00000018, 0x00000000, 0x00000000, 0x00000030);
    NextWord(m, 24, 0x00000060, 0xc2c4c700, 0x00000000, 0x00000000, 0x85898ec1);
    NextWord(m, 25, 0x0b131c03, 0x00000000, 0x00000000, 0x00000000, 0x16263806);
    NextWord(m, 26, 0x00000030, 0x00000030, 0x00000000, 0x00000000, 0x00000000);
    NextWord(m, 27, 0x85898ec1, 0x85898e01, 0x00000000, 0x00000000, 0x00000180);
    NextWord(m, 28, 0x16263806, 0x00000000, 0x00000000, 0x00000000, 0x2c4c700c);
    NextWord(m, 29, 0x00000000, 0x00000060, 0x00000018, 0x00000000, 0x000000f0);
    NextWord(m, 30, 0x00000180, 0x0b131c03, 0xc2c4c700, 0x00000000, 0x93afb507);
    NextWord(m, 31, 0x2c4c700c, 0x00000030, 0x00000000, 0x00000018, 0x5898e048);
  }

  lemma WordsFrom32(m: seq<Word>)
    requires |m| == 16 && Words16(m)
    ensures Words32(m)
  {
    hide Schedule;
    NextWord(m, 32, 0x000000f0, 0x85898ec1, 0x00000030, 0xc2c4c700, 0x8e9a9202);
    NextWord(m, 33, 0x93afb507, 0x16263806, 0x85898e01, 0x00000000, 0x00000600);
    NextWord(m, 34, 0x5898e048, 0x00000000, 0x00000000, 0x00000030, 0xb131c0f0);
    NextWord(m, 35, 0x8e9a9202, 0x00000180, 0x00000060, 0x85898e01, 0x16263bc6);
    NextWord(m, 36, 0x00000600, 0x2c4c700c, 0x0b131c03, 0x00000000, 0x4ebed41e);
    NextWord(m, 37, 0xb131c0f0, 0x000000f0, 0x00000030, 0x00000060, 0x626380a1);
    NextWord(m, 38, 0x16263bc6, 0x93afb507, 0x85898ec1, 0x0b131c03, 0x16263806);
    NextWord(m, 39, 0x4ebed41e, 0x5898e048, 0x16263806, 0x00000030, 0x000018c0);
    NextWord(m, 40, 0x626380a1, 0x8e9a9202, 0x00000000, 0x85898ec1, 0xd2e138c4);
    NextWord(m, 41, 0x16263806, 0x00000600, 0x00000180, 0x16263806, 0x00000f00);
    NextWord(m, 42, 0x000018c0, 0xb131c0f0, 0x2c4c700c, 0x00000000, 0x3afb5079);
    NextWord(m, 43, 0xd2e138c4, 0x16263bc6, 0x000000f0, 0x00000180, 0x898e04e5);
    NextWord(m, 44, 0x00000f00, 0x4ebed41e, 0x93afb507, 0x2c4c700c, 0xe2ba3c2b);
    NextWord(m, 45, 0x3afb5079, 0x626380a1, 0x5898e048, 0x000000f0, 0x000060c0);
    NextWord(m, 46, 0x898e04e5, 0x16263806, 0x8e9a9202, 0x93afb507, 0x053a37cd);
    NextWord(m, 47, 0xe2ba3c2b, 0x000018c0, 0x00000600, 0x5898e048, 0x74458547);
  }

  lemma WordsFrom48(m: seq<Word>)
    requires |m| == 16 && Words32(m)
    ensures Words48(m)
  {
    hide Schedule;
    NextWord(m, 48, 0x000060c0, 0xd2e138c4, 0xb131c0f0, 0x8e9a9202, 0xda9415ed);
    NextWord(m, 49, 0x053a37cd, 0x00000f00, 0x16263bc6, 0x00000600, 0x26380a16);
    NextWord(m, 50, 0x74458547, 0x3afb5079, 0x4ebed41e, 0xb131c0f0, 0x626383a1);
    NextWord(m, 51, 0xda9415ed, 0x898e04e5, 0x626380a1, 0x16263bc6, 0x4ebf54de);
    NextWord(m, 52, 0x26380a16, 0xe2ba3c2b, 0x16263806, 0x4ebed41e, 0x3835b44b);
    NextWord(m, 53, 0x626383a1, 0x000060c0, 0x000018c0, 0x626380a1, 0x0000f600);
    NextWord(m, 54, 0x4ebf54de, 0x053a37cd, 0xd2e138c4, 0x16263806, 0x1e84c7a3);
    NextWord(m, 55, 0x3835b44b, 0x74458547, 0x00000f00, 0x000018c0, 0x98e04d98);
    NextWord(m, 56, 0x0000f600, 0xda9415ed, 0x3afb5079, 0xd2e138c4, 0x651d16a0);
    NextWord(m, 57, 0x1e84c7a3, 0x26380a16, 0x898e04e5, 0x00000f00, 0x62658ca1);
    NextWord(m, 58, 0x98e04d98, 0x626383a1, 0xe2ba3c2b, 0x3afb5079, 0x458544d6);
    NextWord(m, 59, 0x651d16a0, 0x4ebf54de, 0x000060c0, 0x898e04e5, 0x44584cb7);
    NextWord(m, 60, 0x62658ca1, 0x3835b44b, 0x053a37cd, 0xe2ba3c2b, 0x7ba06619);
    NextWord(m, 61, 0x458544d6, 0x0000f600, 0x74458547, 0x000060c0, 0x6380aea2);
    NextWord(m, 62, 0x44584cb7, 0x1e84c7a3, 0xda9415ed, 0x053a37cd, 0x0ae55269);
    NextWord(m, 63, 0x7ba06619, 0x98e04d98, 0x26380a16, 0x74458547, 0x627b49a1);
  }

  lemma WordsFrom64(m: seq<Word>)
    requires |m| == 16 && Words48(m)
    ensures Words64(m)
  {
    hide Schedule;
    NextWord(m, 64, 0x6380aea2, 0x651d16a0, 0x626383a1, 0xda9415ed, 0x7cd45c9d);
    NextWord(m, 65, 0x0ae55269, 0x62658ca1, 0x4ebf54de, 0x26380a16, 0x000f0000);
    NextWord(m, 66, 0x627b49a1, 0x458544d6, 0x3835b44b, 0x626383a1, 0xfb50753a);
    NextWord(m, 67, 0x7cd45c9d, 0x44584cb7, 0x0000f600, 0x4ebf54de, 0xec6765e8);
    NextWord(m, 68, 0x000f0000, 0x7ba06619, 0x1e84c7a3, 0x3835b44b, 0xba3c2be2);
    NextWord(m, 69, 0xfb50753a, 0x6380aea2, 0x98e04d98, 0x0000f600, 0x0060c000);
    NextWord(m, 70, 0xec6765e8, 0x0ae55269, 0x651d16a0, 0x1e84c7a3, 0x3a37cd05);
    NextWord(m, 71, 0xba3c2be2, 0x627b49a1, 0x62658ca1, 0x98e04d98, 0x458546f4);
    NextWord(m, 72, 0x0060c000, 0x7cd45c9d, 0x458544d6, 0x651d16a0, 0xb8599dd6);
    NextWord(m, 73, 0x3a37cd05, 0x000f0000, 0x44584cb7, 0x62658ca1, 0x380a1a26);
    NextWord(m, 74, 0x458546f4, 0xfb50753a, 0x7ba06619, 0x458544d6, 0x01e02203);
    NextWord(m, 75, 0xb8599dd6, 0xec6765e8, 0x6380aea2, 0x44584cb7, 0xe7cc3456);
    NextWord(m, 76, 0x380a1a26, 0xba3c2be2, 0x0ae55269, 0x7ba06619, 0xe6e60b69);
    NextWord(m, 77, 0x01e02203, 0x0060c000, 0x627b49a1, 0x6380aea2, 0x00f60a00);
    NextWord(m, 78, 0xe7cc3456, 0x3a37cd05, 0x7cd45c9d, 0x0ae55269, 0x5795ef4f);
    NextWord(m, 79, 0xe6e60b69, 0x458546f4, 0x000f0000, 0x627b49a1, 0x822e0879);
  }

  lemma StepsFrom0(m: seq<Word>)
    requires |m| == 16 && Words0(m)
    requires At(INITIAL, m, 0, 0x67452301, 0xefcdab89, 0x98badcfe, 0x10325476, 0xc3d2e1f0)
    ensures At(INITIAL, m, 10, 0x8351f929, 0x4b6ae328, 0x27a301f5, 0x664f8c30, 0x0ff1f290)
  {
    hide Schedule, At;
    NextStep(INITIAL, m, 0, 0x67452301, 0xefcdab89, 0x98badcfe, 0x10325476, 0xc3d2e1f0, 0x61626380, 0x0116fc33, 0x7bf36ae2);
    NextStep(INITIAL, m, 1, 0x0116fc33, 0x67452301, 0x7bf36ae2, 0x98badcfe, 0x10325476, 0x00000000, 0x8990536d, 0x59d148c0);
    NextStep(INITIAL, m, 2, 0x8990536d, 0x0116fc33, 0x59d148c0, 0x7bf36ae2, 0x98badcfe, 0x00000000, 0xa1390f08, 0xc045bf0c);
    NextStep(INITIAL, m, 3, 0xa1390f08, 0x8990536d, 0xc045bf0c, 0x59d148c0, 0x7bf36ae2, 0x00000000, 0xcdd8e11b, 0x626414db);
    NextStep(INITIAL, m, 4, 0xcdd8e11b, 0xa1390f08, 0x626414db, 0xc045bf0c, 0x59d148c0, 0x00000000, 0xcfd499de, 0x284e43c2);
    NextStep(INITIAL, m, 5, 0xcfd499de, 0xcdd8e11b, 0x284e43c2, 0x626414db, 0xc045bf0c, 0x00000000, 0x3fc7ca40, 0xf3763846);
    NextStep(INITIAL, m, 6, 0x3fc7ca40, 0xcfd499de, 0xf3763846, 0x284e43c2, 0x626414db, 0x00000000, 0x993e30c1, 0xb3f52677);
    NextStep(INITIAL, m, 7, 0x993e30c1, 0x3fc7ca40, 0xb3f52677, 0xf3763846, 0x284e43c2, 0x00000000, 0x9e8c07d4, 0x0ff1f290);
    NextStep(INITIAL, m, 8, 0x9e8c07d4, 0x993e30c1, 0x0ff1f290, 0xb3f52677, 0xf3763846, 0x00000000, 0x4b6ae328, 0x664f8c30);
    NextStep(INITIAL, m, 9, 0x4b6ae328, 0x9e8c07d4, 0x664f8c30, 0x0ff1f290, 0xb3f52677, 0x00000000, 0x8351f929, 0x27a301f5);
  }

  lemma StepsFrom10(m: seq<Word>)
    requires |m| == 16 && Words0(m) && Words16(m)
    requires At(INITIAL, m, 10, 0x8351f929, 0x4b6ae328, 0x27a301f5, 0x664f8c30, 0x0ff1f290)
    ensures At(INITIAL, m, 20, 0xfd9e1d7d, 0xdc64901d, 0x20aa99ca, 0xd3a49608, 0xc82f758b)
  {
    hide Schedule, At;
    NextStep(INITIAL, m, 10, 0x8351f929, 0x4b6ae328, 0x27a301f5, 0x664f8c30, 0x0ff1f290, 0x00000000, 0xfbda9e89, 0x12dab8ca);
    NextStep(INITIAL, m, 11, 0xfbda9e89, 0x8351f929, 0x12dab8ca, 0x27a301f5, 0x664f8c30, 0x00000000, 0x63188fe4, 0x60d47e4a);
    NextStep(INITIAL, m, 12, 0x63188fe4, 0xfbda9e89, 0x60d47e4a, 0x12dab8ca, 0x27a301f5, 0x00000000, 0x4607b664, 0x7ef6a7a2);
    NextStep(INITIAL, m, 13, 0x4607b664, 0x63188fe4, 0x7ef6a7a2, 0x60d47e4a, 0x12dab8ca, 0x00000000, 0x9128f695, 0x18c623f9);
    NextStep(INITIAL, m, 14, 0x9128f695, 0x4607b664, 0x18c623f9, 0x7ef6a7a2, 0x60d47e4a, 0x00000000, 0x196bee77, 0x1181ed99);
    NextStep(INITIAL, m, 15, 0x196bee77, 0x9128f695, 0x1181ed99, 0x18c623f9, 0x7ef6a7a2, 0x00000018, 0x20bdd62f, 0x644a3da5);
    NextStep(INITIAL, m, 16, 0x20bdd62f, 0x196bee77, 0x644a3da5, 0x1181ed99, 0x18c623f9, 0xc2c4c700, 0x4e925823, 0xc65afb9d);
    NextStep(INITIAL, m, 17, 0x4e925823, 0x20bdd62f, 0xc65afb9d, 0x644a3da5, 0x1181ed99, 0x00000000, 0x82aa6728, 0xc82f758b);
    NextStep(INITIAL, m, 18, 0x82aa6728, 0x4e925823, 0xc82f758b, 0xc65afb9d, 0x644a3da5, 0x00000030, 0xdc64901d, 0xd3a49608);
    NextStep(INITIAL, m, 19, 0xdc64901d, 0x82aa6728, 0xd3a49608, 0xc82f758b, 0xc65afb9d, 0x85898e01, 0xfd9e1d7d, 0x20aa99ca);
  }

  lemma StepsFrom20(m: seq<Word>)
    requires |m| == 16 && Words16(m)
    requires At(INITIAL, m, 20, 0xfd9e1d7d, 0xdc64901d, 0x20aa99ca, 0xd3a49608, 0xc82f758b)
    ensures At(INITIAL, m, 30, 0xc5fbaf5d, 0x8370b52e, 0xd2aa1365, 0x6f8d7ef5, 0x12104ee9)
  {
    hide Schedule, At;
    NextStep(INITIAL, m, 20, 0xfd9e1d7d, 0xdc64901d, 0x20aa99ca, 0xd3a49608, 0xc82f758b, 0x00000000, 0x1a37b0ca, 0x77192407);
    NextStep(INITIAL, m, 21, 0x1a37b0ca, 0xfd9e1d7d, 0x77192407, 0x20aa99ca, 0xd3a49608, 0x00000060, 0x33a23bfc, 0x7f67875f);
    NextStep(INITIAL, m, 22, 0x33a23bfc, 0x1a37b0ca, 0x7f67875f, 0x77192407, 0x20aa99ca, 0x0b131c03, 0x21283486, 0x868dec32);
    NextStep(INITIAL, m, 23, 0x21283486, 0x33a23bfc, 0x868dec32, 0x7f67875f, 0x77192407, 0x00000030, 0xd541f12d, 0x0ce88eff);
    NextStep(INITIAL, m, 24, 0xd541f12d, 0x21283486, 0x0ce88eff, 0x868dec32, 0x7f67875f, 0x85898ec1, 0xc7567dc6, 0x884a0d21);
    NextStep(INITIAL, m, 25, 0xc7567dc6, 0xd541f12d, 0x884a0d21, 0x0ce88eff, 0x868dec32, 0x16263806, 0x48413ba4, 0x75507c4b);
    NextStep(INITIAL, m, 26, 0x48413ba4, 0xc7567dc6, 0x75507c4b, 0x884a0d21, 0x0ce88eff, 0x00000000, 0xbe35fbd5, 0xb1d59f71);
    NextStep(INITIAL, m, 27, 0xbe35fbd5, 0x48413ba4, 0xb1d59f71, 0x75507c4b, 0x884a0d21, 0x00000180, 0x4aa84d97, 0x12104ee9);
    NextStep(INITIAL, m, 28, 0x4aa84d97, 0xbe35fbd5, 0x12104ee9, 0xb1d59f71, 0x75507c4b, 0x2c4c700c, 0x8370b52e, 0x6f8d7ef5);
    NextStep(INITIAL, m, 29, 0x8370b52e, 0x4aa84d97, 0x6f8d7ef5, 0x12104ee9, 0xb1d59f71, 0x000000f0, 0xc5fbaf5d, 0xd2aa1365);
  }

  lemma StepsFrom30(m: seq<Word>)
    requires |m| == 16 && Words16(m) && Words32(m)
    requires At(INITIAL, m, 30, 0xc5fbaf5d, 0x8370b52e, 0xd2aa1365, 0x6f8d7ef5, 0x12104ee9)
    ensures At(INITIAL, m, 40, 0x32de1cba, 0x4c986405, 0xf718e5cf, 0x03d447f6, 0xf72eec32)
  {
    hide Schedule, At;
    NextStep(INITIAL, m, 30, 0xc5fbaf5d, 0x8370b52e, 0xd2aa1365, 0x6f8d7ef5, 0x12104ee9, 0x93afb507, 0x1267b407, 0xa0dc2d4b);
    NextStep(INITIAL, m, 31, 0x1267b407, 0xc5fbaf5d, 0xa0dc2d4b, 0xd2aa1365, 0x6f8d7ef5, 0x5898e048, 0x3b845d33, 0x717eebd7);
    NextStep(INITIAL, m, 32, 0x3b845d33, 0x1267b407, 0x717eebd7, 0xa0dc2d4b, 0xd2aa1365, 0x8e9a9202, 0x046faa0a, 0xc499ed01);
    NextStep(INITIAL, m, 33, 0x046faa0a, 0x3b845d33, 0xc499ed01, 0x717eebd7, 0xa0dc2d4b, 0x00000600, 0x2c0ebc11, 0xcee1174c);
    NextStep(INITIAL, m, 34, 0x2c0ebc11, 0x046faa0a, 0xcee1174c, 0xc499ed01, 0x717eebd7, 0xb131c0f0, 0x21796ad4, 0x811bea82);
    NextStep(INITIAL, m, 35, 0x21796ad4, 0x2c0ebc11, 0x811bea82, 0xcee1174c, 0xc499ed01, 0x16263bc6, 0xdcbbb0cb, 0x4b03af04);
    NextStep(INITIAL, m, 36, 0xdcbbb0cb, 0x21796ad4, 0x4b03af04, 0x811bea82, 0xcee1174c, 0x4ebed41e, 0x0f511fd8, 0x085e5ab5);
    NextStep(INITIAL, m, 37, 0x0f511fd8, 0xdcbbb0cb, 0x085e5ab5, 0x4b03af04, 0x811bea82, 0x626380a1, 0xdc63973f, 0xf72eec32);
    NextStep(INITIAL, m, 38, 0xdc63973f, 0x0f511fd8, 0xf72eec32, 0x085e5ab5, 0x4b03af04, 0x16263806, 0x4c986405, 0x03d447f6);
    NextStep(INITIAL, m, 39, 0x4c986405, 0xdc63973f, 0x03d447f6, 0xf72eec32, 0x085e5ab5, 0x000018c0, 0x32de1cba, 0xf718e5cf);
  }

  lemma StepsFrom40(m: seq<Word>)
    requires |m| == 16 && Words32(m) && Words48(m)
    requires At(INITIAL, m, 40, 0x32de1cba, 0x4c986405, 0xf718e5cf, 0x03d447f6, 0xf72eec32)
    ensures At(INITIAL, m, 50, 0x120731c5, 0xbaf39337, 0xafab40b2, 0x2806e11b, 0x8714787c)
  {
    hide Schedule, At;
    NextStep(INITIAL, m, 40, 0x32de1cba, 0x4c986405, 0xf718e5cf, 0x03d447f6, 0xf72eec32, 0xd2e138c4, 0xfc87dedf, 0x53261901);
    NextStep(INITIAL, m, 41, 0xfc87dedf, 0x32de1cba, 0x53261901, 0xf718e5cf, 0x03d447f6, 0x00000f00, 0x970a0d5c, 0x8cb7872e);
    NextStep(INITIAL, m, 42, 0x970a0d5c, 0xfc87dedf, 0x8cb7872e, 0x53261901, 0xf718e5cf, 0x3afb5079, 0x7f193dc5, 0xff21f7b7);
    NextStep(INITIAL, m, 43, 0x7f193dc5, 0x970a0d5c, 0xff21f7b7, 0x8cb7872e, 0x53261901, 0x898e04e5, 0xee1b1aaf, 0x25c28357);
    NextStep(INITIAL, m, 44, 0xee1b1aaf, 0x7f193dc5, 0x25c28357, 0xff21f7b7, 0x8cb7872e, 0xe2ba3c2b, 0x40f28e09, 0x5fc64f71);
    NextStep(INITIAL, m, 45, 0x40f28e09, 0xee1b1aaf, 0x5fc64f71, 0x25c28357, 0xff21f7b7, 0x000060c0, 0x1c51e1f2, 0xfb86c6ab);
    NextStep(INITIAL, m, 46, 0x1c51e1f2, 0x40f28e09, 0xfb86c6ab, 0x5fc64f71, 0x25c28357, 0x053a37cd, 0xa01b846c, 0x503ca382);
    NextStep(INITIAL, m, 47, 0xa01b846c, 0x1c51e1f2, 0x503ca382, 0xfb86c6ab, 0x5fc64f71, 0x74458547, 0xbead02ca, 0x8714787c);
    NextStep(INITIAL, m, 48, 0xbead02ca, 0xa01b846c, 0x8714787c, 0x503ca382, 0xfb86c6ab, 0xda9415ed, 0xbaf39337, 0x2806e11b);
    NextStep(INITIAL, m, 49, 0xbaf39337, 0xbead02ca, 0x2806e11b, 0x8714787c, 0x503ca382, 0x26380a16, 0x120731c5, 0xafab40b2);
  }

  lemma StepsFrom50(m: seq<Word>)
    requires |m| == 16 && Words48(m)
    requires At(INITIAL, m, 50, 0x120731c5, 0xbaf39337, 0xafab40b2, 0x2806e11b, 0x8714787c)
    ensures At(INITIAL, m, 60, 0x3f52de5a, 0x09d785fd, 0x3498bfd4, 0xf211824f, 0xd79915ab)
  {
    hide Schedule, At;
    NextStep(INITIAL, m, 50, 0x120731c5, 0xbaf39337, 0xafab40b2, 0x2806e11b, 0x8714787c, 0x626383a1, 0x641db2ce, 0xeebce4cd);
    NextStep(INITIAL, m, 51, 0x641db2ce, 0x120731c5, 0xeebce4cd, 0xafab40b2, 0x2806e11b, 0x4ebf54de, 0x3847ad66, 0x4481cc71);
    NextStep(INITIAL, m, 52, 0x3847ad66, 0x641db2ce, 0x4481cc71, 0xeebce4cd, 0xafab40b2, 0x3835b44b, 0xe490436d, 0x99076cb3);
    NextStep(INITIAL, m, 53, 0xe490436d, 0x3847ad66, 0x99076cb3, 0x4481cc71, 0xeebce4cd, 0x0000f600, 0x27e9f1d8, 0x8e11eb59);
    NextStep(INITIAL, m, 54, 0x27e9f1d8, 0xe490436d, 0x8e11eb59, 0x99076cb3, 0x4481cc71, 0x1e84c7a3, 0x7b71f76d, 0x792410db);
    NextStep(INITIAL, m, 55, 0x7b71f76d, 0x27e9f1d8, 0x792410db, 0x8e11eb59, 0x99076cb3, 0x98e04d98, 0x5e6456af, 0x09fa7c76);
    NextStep(INITIAL, m, 56, 0x5e6456af, 0x7b71f76d, 0x09fa7c76, 0x792410db, 0x8e11eb59, 0x651d16a0, 0xc846093f, 0x5edc7ddb);
    NextStep(INITIAL, m, 57, 0xc846093f, 0x5e6456af, 0x5edc7ddb, 0x09fa7c76, 0x792410db, 0x62658ca1, 0xd262ff50, 0xd79915ab);
    NextStep(INITIAL, m, 58, 0xd262ff50, 0xc846093f, 0xd79915ab, 0x5edc7ddb, 0x09fa7c76, 0x458544d6, 0x09d785fd, 0xf211824f);
    NextStep(INITIAL, m, 59, 0x09d785fd, 0xd262ff50, 0xf211824f, 0xd79915ab, 0x5edc7ddb, 0x44584cb7, 0x3f52de5a, 0x3498bfd4);
  }

  lemma StepsFrom60(m: seq<Word>)
    requires |m| == 16 && Words48(m) && Words64(m)
    requires At(INITIAL, m, 60, 0x3f52de5a, 0x09d785fd, 0x3498bfd4, 0xf211824f, 0xd79915ab)
    ensures At(INITIAL, m, 70, 0x3f2588c2, 0x497093c0, 0xde37534a, 0x030f7cad, 0x4405957e)
  {
    hide Schedule, At;
    NextStep(INITIAL, m, 60, 0x3f52de5a, 0x09d785fd, 0x3498bfd4, 0xf211824f, 0xd79915ab, 0x7ba06619, 0xd756c147, 0x4275e17f);
    NextStep(INITIAL, m, 61, 0xd756c147, 0x3f52de5a, 0x4275e17f, 0x3498bfd4, 0xf211824f, 0x6380aea2, 0x548c9cb2, 0x8fd4b796);
    NextStep(INITIAL, m, 62, 0x548c9cb2, 0xd756c147, 0x8fd4b796, 0x4275e17f, 0x3498bfd4, 0x0ae55269, 0xb66c020b, 0xf5d5b051);
    NextStep(INITIAL, m, 63, 0xb66c020b, 0x548c9cb2, 0xf5d5b051, 0x8fd4b796, 0x4275e17f, 0x627b49a1, 0x6b61c9e1, 0x9523272c);
    NextStep(INITIAL, m, 64, 0x6b61c9e1, 0xb66c020b, 0x9523272c, 0xf5d5b051, 0x8fd4b796, 0x7cd45c9d, 0x19dfa7ac, 0xed9b0082);
    NextStep(INITIAL, m, 65, 0x19dfa7ac, 0x6b61c9e1, 0xed9b0082, 0x9523272c, 0xf5d5b051, 0x000f0000, 0x101655f9, 0x5ad87278);
    NextStep(INITIAL, m, 66, 0x101655f9, 0x19dfa7ac, 0x5ad87278, 0xed9b0082, 0x9523272c, 0xfb50753a, 0x0c3df2b4, 0x0677e9eb);
    NextStep(INITIAL, m, 67, 0x0c3df2b4, 0x101655f9, 0x0677e9eb, 0x5ad87278, 0xed9b0082, 0xec6765e8, 0x78dd4d2b, 0x4405957e);
    NextStep(INITIAL, m, 68, 0x78dd4d2b, 0x0c3df2b4, 0x4405957e, 0x0677e9eb, 0x5ad87278, 0xba3c2be2, 0x497093c0, 0x030f7cad);
    NextStep(INITIAL, m, 69, 0x497093c0, 0x78dd4d2b, 0x030f7cad, 0x4405957e, 0x0677e9eb, 0x0060c000, 0x3f2588c2, 0xde37534a);
  }

  lemma StepsFrom70(m: seq<Word>)
    requires |m| == 16 && Words64(m)
    requires At(INITIAL, m, 70, 0x3f2588c2, 0x497093c0, 0xde37534a, 0x030f7cad, 0x4405957e)
    ensures At(INITIAL, m, 80, 0x42541b35, 0x5738d5e1, 0x21834873, 0x681e6df6, 0xd8fdf6ad)
  {
    hide Schedule, At;
    NextStep(INITIAL, m, 70, 0x3f2588c2, 0x497093c0, 0xde37534a, 0x030f7cad, 0x4405957e, 0x3a37cd05, 0xc199f8c7, 0x125c24f0);
    NextStep(INITIAL, m, 71, 0xc199f8c7, 0x3f2588c2, 0x125c24f0, 0xde37534a, 0x030f7cad, 0x458546f4, 0x39859de7, 0x8fc96230);
    NextStep(INITIAL, m, 72, 0x39859de7, 0xc199f8c7, 0x8fc96230, 0x125c24f0, 0xde37534a, 0xb8599dd6, 0xedb42de4, 0xf0667e31);
    NextStep(INITIAL, m, 73, 0xedb42de4, 0x39859de7, 0xf0667e31, 0x8fc96230, 0x125c24f0, 0x380a1a26, 0x11793f6f, 0xce616779);
    NextStep(INITIAL, m, 74, 0x11793f6f, 0xedb42de4, 0xce616779, 0xf0667e31, 0x8fc96230, 0x01e02203, 0x5ee76897, 0x3b6d0b79);
    NextStep(INITIAL, m, 75, 0x5ee76897, 0x11793f6f, 0x3b6d0b79, 0xce616779, 0xf0667e31, 0xe7cc3456, 0x63f7dab7, 0xc45e4fdb);
    NextStep(INITIAL, m, 76, 0x63f7dab7, 0x5ee76897, 0xc45e4fdb, 0x3b6d0b79, 0xce616779, 0xe6e60b69, 0xa079b7d9, 0xd7b9da25);
    NextStep(INITIAL, m, 77, 0xa079b7d9, 0x63f7dab7, 0xd7b9da25, 0xc45e4fdb, 0x3b6d0b79, 0x00f60a00, 0x860d21cc, 0xd8fdf6ad);
    NextStep(INITIAL, m, 78, 0x860d21cc, 0xa079b7d9, 0xd8fdf6ad, 0xd7b9da25, 0xc45e4fdb, 0x5795ef4f, 0x5738d5e1, 0x681e6df6);
    NextStep(INITIAL, m, 79, 0x5738d5e1, 0x860d21cc, 0x681e6df6, 0xd8fdf6ad, 0xd7b9da25, 0x822e0879, 0x42541b35, 0x21834873);
  }

  /** All eighty steps. */
  lemma AllSteps(m: seq<Word>)
    requires m == Block()
    ensures At(INITIAL, m, 80, 0x42541b35, 0x5738d5e1, 0x21834873, 0x681e6df6, 0xd8fdf6ad)
  {
    hide At, Schedule, Words0, Words16, Words32, Words48, Words64;
    BlockWords(m);
    WordsFrom16(m);
    WordsFrom32(m);
    WordsFrom48(m);
    WordsFrom64(m);
    NothingDone(m);
    StepsFrom0(m);
    StepsFrom10(m);
    StepsFrom20(m);
    StepsFrom30(m);
    StepsFrom40(m);
    StepsFrom50(m);
    StepsFrom60(m);
    StepsFrom70(m);
  }

  lemma NothingDone(m: seq<Word>)
    requires |m| == 16
    ensures At(INITIAL, m, 0, 0x67452301, 0xefcdab89, 0x98badcfe, 0x10325476, 0xc3d2e1f0)
  {
  }

  lemma AbcCompressed(m: seq<Word>)
    requires m == Block()
    ensures Compress(INITIAL, m) == Hash(0xa9993e36, 0x4706816a, 0xba3e2571, 0x7850c26c, 0x9cd0d89d)
  {
    hide Rounds;
    AllSteps(m);
  }

  lemma FirstWord()
    ensures BigEndian(0x61, 0x62, 0x63, 0x80) == 0x61626380
  {
  }

  /** Three letters, 0x80, fifty-two zero bytes and the length of 24 bits. */
  lemma AbcPadded(message: seq<Byte>)
    requires message == [0x61, 0x62, 0x63]
    ensures Padded(message) == Block()
  {
    hide WordsOf, BigEndian, LengthWords;
    var bytes := message + [0x80] + Zeros(52);
    assert ZeroBytes(3) == 52;
    AbcWords(bytes);
    AbcLength();
  }

  lemma AbcWords(bytes: seq<Byte>)
    requires bytes == [0x61, 0x62, 0x63] + [0x80] + Zeros(52)
    ensures WordsOf(bytes) == [0x61626380, 0, 0, 0, 0, 0, 0, 0, 0, 0, 0, 0, 0, 0]
  {
    hide WordsOf, BigEndian;
    FirstWord();
    ZeroWord();
    assert |WordsOf(bytes)| == 14;
    WordsAt(bytes, 0);
    forall i | 1 <= i < 14 ensures WordsOf(bytes)[i] == 0 {
      WordsAt(bytes, i);
    }
  }

  lemma SmallWords()
    ensures WordOf(0) == 0 && WordOf(24) == 24
  {
  }

  lemma AbcLength()
    ensures LengthWords(24) == [0, 24]
  {
    hide WordOf;
    SmallWords();
  }

  lemma HexWord0()
    ensures HexWord(0xa9993e36) == "a9993e36"
  {
  }

  lemma HexWord1()
    ensures HexWord(0x4706816a) == "4706816a"
  {
  }

  lemma HexWord2()
    ensures HexWord(0xba3e2571) == "ba3e2571"
  {
  }

  lemma HexWord3()
    ensures HexWord(0x7850c26c) == "7850c26c"
  {
  }

  lemma HexWord4()
    ensures HexWord(0x9cd0d89d) == "9cd0d89d"
  {
  }

  /** The hash of "abc". */
  lemma AbcHash(message: seq<Byte>)
    requires message == [0x61, 0x62, 0x63]
    ensures Hex(Sha1Definition.Sha1(message)) == "a9993e36" + "4706816a" + "ba3e2571" + "7850c26c" + "9cd0d89d"
  {
    hide Padded, Compress, CompressAll, HexWord;
    AbcPadded(message);
    OneBlock(INITIAL, Block());
    AbcCompressed(Block());
    HexWord0();
    HexWord1();
    HexWord2();
    HexWord3();
    HexWord4();
  }
}
