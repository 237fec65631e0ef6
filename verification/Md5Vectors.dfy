/** MD5 on two messages of the test suite in section A.5 of RFC 1321, register by register. */
module Md5Vectors {
  import opened Words
  import opened Md5Compression
  import opened Md5
  import opened Md5Message

  // ---------------------------------------------------------------- the step constants

  /** One step, from its index, shift and constant. */
  lemma Stepped(i: nat, start: Regs, r: Regs, w: Block16, k: nat, s: nat, t: Word, next: Regs)
    requires i < 64 && Operations(i, start, w) == r && k == Index(i) && s == Amount(i) && t == MD5TAB[i]
    requires next == Regs(r.d, Combine(r.a, r.b, Auxiliary(i, r.b, r.c, r.d), w[k], s, t), r.b, r.c)
    ensures Operations(i + 1, start, w) == next
  {
    hide Combine, Auxiliary, MD5TAB, Index, Amount;
  }

  lemma Constants0()
    ensures Index(0) == 0 && Amount(0) == 7 && MD5TAB[0] == 0xD76AA478
    ensures Index(1) == 1 && Amount(1) == 12 && MD5TAB[1] == 0xE8C7B756
    ensures Index(2) == 2 && Amount(2) == 17 && MD5TAB[2] == 0x242070DB
    ensures Index(3) == 3 && Amount(3) == 22 && MD5TAB[3] == 0xC1BDCEEE
  {
  }

  lemma Constants4()
    ensures Index(4) == 4 && Amount(4) == 7 && MD5TAB[4] == 0xF57C0FAF
    ensures Index(5) == 5 && Amount(5) == 12 && MD5TAB[5] == 0x4787C62A
    ensures Index(6) == 6 && Amount(6) == 17 && MD5TAB[6] == 0xA8304613
    ensures Index(7) == 7 && Amount(7) == 22 && MD5TAB[7] == 0xFD469501
  {
  }

  lemma Constants8()
    ensures Index(8) == 8 && Amount(8) == 7 && MD5TAB[8] == 0x698098D8
    ensures Index(9) == 9 && Amount(9) == 12 && MD5TAB[9] == 0x8B44F7AF
    ensures Index(10) == 10 && Amount(10) == 17 && MD5TAB[10] == 0xFFFF5BB1
    ensures Index(11) == 11 && Amount(11) == 22 && MD5TAB[11] == 0x895CD7BE
  {
  }

  lemma Constants12()
    ensures Index(12) == 12 && Amount(12) == 7 && MD5TAB[12] == 0x6B901122
    ensures Index(13) == 13 && Amount(13) == 12 && MD5TAB[13] == 0xFD987193
    ensures Index(14) == 14 && Amount(14) == 17 && MD5TAB[14] == 0xA679438E
    ensures Index(15) == 15 && Amount(15) == 22 && MD5TAB[15] == 0x49B40821
  {
  }

  lemma Constants16()
    ensures Index(16) == 1 && Amount(16) == 5 && MD5TAB[16] == 0xF61E2562
    ensures Index(17) == 6 && Amount(17) == 9 && MD5TAB[17] == 0xC040B340
    ensures Index(18) == 11 && Amount(18) == 14 && MD5TAB[18] == 0x265E5A51
    ensures Index(19) == 0 && Amount(19) == 20 && MD5TAB[19] == 0xE9B6C7AA
  {
  }

  lemma Constants20()
    ensures Index(20) == 5 && Amount(20) == 5 && MD5TAB[20] == 0xD62F105D
    ensures Index(21) == 10 && Amount(21) == 9 && MD5TAB[21] == 0x02441453
    ensures Index(22) == 15 && Amount(22) == 14 && MD5TAB[22] == 0xD8A1E681
    ensures Index(23) == 4 && Amount(23) == 20 && MD5TAB[23] == 0xE7D3FBC8
  {
  }

  lemma Constants24()
    ensures Index(24) == 9 && Amount(24) == 5 && MD5TAB[24] == 0x21E1CDE6
    ensures Index(25) == 14 && Amount(25) == 9 && MD5TAB[25] == 0xC33707D6
    ensures Index(26) == 3 && Amount(26) == 14 && MD5TAB[26] == 0xF4D50D87
    ensures Index(27) == 8 && Amount(27) == 20 && MD5TAB[27] == 0x455A14ED
  {
  }

  lemma Constants28()
    ensures Index(28) == 13 && Amount(28) == 5 && MD5TAB[28] == 0xA9E3E905
    ensures Index(29) == 2 && Amount(29) == 9 && MD5TAB[29] == 0xFCEFA3F8
    ensures Index(30) == 7 && Amount(30) == 14 && MD5TAB[30] == 0x676F02D9
    ensures Index(31) == 12 && Amount(31) == 20 && MD5TAB[31] == 0x8D2A4C8A
  {
  }

  lemma Constants32()
    ensures Index(32) == 5 && Amount(32) == 4 && MD5TAB[32] == 0xFFFA3942
    ensures Index(33) == 8 && Amount(33) == 11 && MD5TAB[33] == 0x8771F681
    ensures Index(34) == 11 && Amount(34) == 16 && MD5TAB[34] == 0x6D9D6122
    ensures Index(35) == 14 && Amount(35) == 23 && MD5TAB[35] == 0xFDE5380C
  {
  }

  lemma Constants36()
    ensures Index(36) == 1 && Amount(36) == 4 && MD5TAB[36] == 0xA4BEEA44
    ensures Index(37) == 4 && Amount(37) == 11 && MD5TAB[37] == 0x4BDECFA9
    ensures Index(38) == 7 && Amount(38) == 16 && MD5TAB[38] == 0xF6BB4B60
    ensures Index(39) == 10 && Amount(39) == 23 && MD5TAB[39] == 0xBEBFBC70
  {
  }

  lemma Constants40()
    ensures Index(40) == 13 && Amount(40) == 4 && MD5TAB[40] == 0x289B7EC6
    ensures Index(41) == 0 && Amount(41) == 11 && MD5TAB[41] == 0xEAA127FA
    ensures Index(42) == 3 && Amount(42) == 16 && MD5TAB[42] == 0xD4EF3085
    ensures Index(43) == 6 && Amount(43) == 23 && MD5TAB[43] == 0x04881D05
  {
  }

  lemma Constants44()
    ensures Index(44) == 9 && Amount(44) == 4 && MD5TAB[44] == 0xD9D4D039
    ensures Index(45) == 12 && Amount(45) == 11 && MD5TAB[45] == 0xE6DB99E5
    ensures Index(46) == 15 && Amount(46) == 16 && MD5TAB[46] == 0x1FA27CF8
    ensures Index(47) == 2 && Amount(47) == 23 && MD5TAB[47] == 0xC4AC5665
  {
  }

  lemma Constants48()
    ensures Index(48) == 0 && Amount(48) == 6 && MD5TAB[48] == 0xF4292244
    ensures Index(49) == 7 && Amount(49) == 10 && MD5TAB[49] == 0x432AFF97
    ensures Index(50) == 14 && Amount(50) == 15 && MD5TAB[50] == 0xAB9423A7
    ensures Index(51) == 5 && Amount(51) == 21 && MD5TAB[51] == 0xFC93A039
  {
  }

  lemma Constants52()
    ensures Index(52) == 12 && Amount(52) == 6 && MD5TAB[52] == 0x655B59C3
    ensures Index(53) == 3 && Amount(53) == 10 && MD5TAB[53] == 0x8F0CCC92
    ensures Index(54) == 10 && Amount(54) == 15 && MD5TAB[54] == 0xFFEFF47D
    ensures Index(55) == 1 && Amount(55) == 21 && MD5TAB[55] == 0x85845DD1
  {
  }

  lemma Constants56()
    ensures Index(56) == 8 && Amount(56) == 6 && MD5TAB[56] == 0x6FA87E4F
    ensures Index(57) == 15 && Amount(57) == 10 && MD5TAB[57] == 0xFE2CE6E0
    ensures Index(58) == 6 && Amount(58) == 15 && MD5TAB[58] == 0xA3014314
    ensures Index(59) == 13 && Amount(59) == 21 && MD5TAB[59] == 0x4E0811A1
  {
  }

  lemma Constants60()
    ensures Index(60) == 4 && Amount(60) == 6 && MD5TAB[60] == 0xF7537E82
    ensures Index(61) == 11 && Amount(61) == 10 && MD5TAB[61] == 0xBD3AF235
    ensures Index(62) == 2 && Amount(62) == 15 && MD5TAB[62] == 0x2AD7D2BB
    ensures Index(63) == 9 && Amount(63) == 21 && MD5TAB[63] == 0xEB86D391
  {
  }

  lemma Steps0(w: Block16)
    ensures Operations(0, INITIAL, w) == Regs(0x67452301, 0xEFCDAB89, 0x98BADCFE, 0x10325476)
  {
  }

  // ---------------------------------------------------------------- the empty message

  function EmptyWords(): Block16 {
    [0x80, 0, 0, 0, 0, 0, 0, 0, 0, 0, 0, 0, 0, 0, 0, 0]
  }

  lemma EmptySteps1(w: Block16)
    requires w == EmptyWords()
    ensures Operations(1, INITIAL, w) == Regs(0x10325476, 0xA5202774, 0xEFCDAB89, 0x98BADCFE)
  {
    hide Index, Amount, MD5TAB, Operations;
    Steps0(w);
    Constants0();
    Stepped(0, INITIAL, Regs(0x67452301, 0xEFCDAB89, 0x98BADCFE, 0x10325476), w, 0, 7, 0xD76AA478,
            Regs(0x10325476, 0xA5202774, 0xEFCDAB89, 0x98BADCFE));
  }

  lemma EmptySteps2(w: Block16)
    requires w == EmptyWords()
    ensures Operations(2, INITIAL, w) == Regs(0x98BADCFE, 0xF59592DD, 0xA5202774, 0xEFCDAB89)
  {
    hide Index, Amount, MD5TAB, Operations;
    EmptySteps1(w);
    Constants0();
    Stepped(1, INITIAL, Regs(0x10325476, 0xA5202774, 0xEFCDAB89, 0x98BADCFE), w, 1, 12, 0xE8C7B756,
            Regs(0x98BADCFE, 0xF59592DD, 0xA5202774, 0xEFCDAB89));
  }

  lemma EmptySteps3(w: Block16)
    requires w == EmptyWords()
    ensures Operations(3, INITIAL, w) == Regs(0xEFCDAB89, 0xE7F06B23, 0xF59592DD, 0xA5202774)
  {
    hide Index, Amount, MD5TAB, Operations;
    EmptySteps2(w);
    Constants0();
    Stepped(2, INITIAL, Regs(0x98BADCFE, 0xF59592DD, 0xA5202774, 0xEFCDAB89), w, 2, 17, 0x242070DB,
            Regs(0xEFCDAB89, 0xE7F06B23, 0xF59592DD, 0xA5202774));
  }

  lemma EmptySteps4(w: Block16)
    requires w == EmptyWords()
    ensures Operations(4, INITIAL, w) == Regs(0xA5202774, 0x1B163203, 0xE7F06B23, 0xF59592DD)
  {
    hide Index, Amount, MD5TAB, Operations;
    EmptySteps3(w);
    Constants0();
    Stepped(3, INITIAL, Regs(0xEFCDAB89, 0xE7F06B23, 0xF59592DD, 0xA5202774), w, 3, 22, 0xC1BDCEEE,
            Regs(0xA5202774, 0x1B163203, 0xE7F06B23, 0xF59592DD));
  }

  lemma EmptySteps8(w: Block16)
    requires w == EmptyWords()
    ensures Operations(8, INITIAL, w) == Regs(0x32033344, 0x9BC13CE9, 0xF5B158DB, 0x2F35D494)
  {
    hide Index, Amount, MD5TAB, Operations;
    EmptySteps4(w);
    Constants4();
    Stepped(4, INITIAL, Regs(0xA5202774, 0x1B163203, 0xE7F06B23, 0xF59592DD), w, 4, 7, 0xF57C0FAF,
            Regs(0xF59592DD, 0x32033344, 0x1B163203, 0xE7F06B23));
    Stepped(5, INITIAL, Regs(0xF59592DD, 0x32033344, 0x1B163203, 0xE7F06B23), w, 5, 12, 0x4787C62A,
            Regs(0xE7F06B23, 0x2F35D494, 0x32033344, 0x1B163203));
    Stepped(6, INITIAL, Regs(0xE7F06B23, 0x2F35D494, 0x32033344, 0x1B163203), w, 6, 17, 0xA8304613,
            Regs(0x1B163203, 0xF5B158DB, 0x2F35D494, 0x32033344));
    Stepped(7, INITIAL, Regs(0x1B163203, 0xF5B158DB, 0x2F35D494, 0x32033344), w, 7, 22, 0xFD469501,
            Regs(0x32033344, 0x9BC13CE9, 0xF5B158DB, 0x2F35D494));
  }

  lemma EmptySteps12(w: Block16)
    requires w == EmptyWords()
    ensures Operations(12, INITIAL, w) == Regs(0x3893B991, 0x70768A29, 0xE1EF0576, 0xFCE4A312)
  {
    hide Index, Amount, MD5TAB, Operations;
    EmptySteps8(w);
    Constants8();
    Stepped(8, INITIAL, Regs(0x32033344, 0x9BC13CE9, 0xF5B158DB, 0x2F35D494), w, 8, 7, 0x698098D8,
            Regs(0x2F35D494, 0x3893B991, 0x9BC13CE9, 0xF5B158DB));
    Stepped(9, INITIAL, Regs(0x2F35D494, 0x3893B991, 0x9BC13CE9, 0xF5B158DB), w, 9, 12, 0x8B44F7AF,
            Regs(0xF5B158DB, 0xFCE4A312, 0x3893B991, 0x9BC13CE9));
    Stepped(10, INITIAL, Regs(0xF5B158DB, 0xFCE4A312, 0x3893B991, 0x9BC13CE9), w, 10, 17, 0xFFFF5BB1,
            Regs(0x9BC13CE9, 0xE1EF0576, 0xFCE4A312, 0x3893B991));
    Stepped(11, INITIAL, Regs(0x9BC13CE9, 0xE1EF0576, 0xFCE4A312, 0x3893B991), w, 11, 22, 0x895CD7BE,
            Regs(0x3893B991, 0x70768A29, 0xE1EF0576, 0xFCE4A312));
  }

  lemma EmptySteps16(w: Block16)
    requires w == EmptyWords()
    ensures Operations(16, INITIAL, w) == Regs(0xF56C7CF1, 0xD6819C6A, 0x5AA53F75, 0x374943A7)
  {
    hide Index, Amount, MD5TAB, Operations;
    EmptySteps12(w);
    Constants12();
    Stepped(12, INITIAL, Regs(0x3893B991, 0x70768A29, 0xE1EF0576, 0xFCE4A312), w, 12, 7, 0x6B901122,
            Regs(0xFCE4A312, 0xF56C7CF1, 0x70768A29, 0xE1EF0576));
    Stepped(13, INITIAL, Regs(0xFCE4A312, 0xF56C7CF1, 0x70768A29, 0xE1EF0576), w, 13, 12, 0xFD987193,
            Regs(0xE1EF0576, 0x374943A7, 0xF56C7CF1, 0x70768A29));
    Stepped(14, INITIAL, Regs(0xE1EF0576, 0x374943A7, 0xF56C7CF1, 0x70768A29), w, 14, 17, 0xA679438E,
            Regs(0x70768A29, 0x5AA53F75, 0x374943A7, 0xF56C7CF1));
    Stepped(15, INITIAL, Regs(0x70768A29, 0x5AA53F75, 0x374943A7, 0xF56C7CF1), w, 15, 22, 0x49B40821,
            Regs(0xF56C7CF1, 0xD6819C6A, 0x5AA53F75, 0x374943A7));
  }

  lemma EmptySteps20(w: Block16)
    requires w == EmptyWords()
    ensures Operations(20, INITIAL, w) == Regs(0x1C7D7513, 0xBD782E17, 0xC095F13A, 0x7BD57A3A)
  {
    hide Index, Amount, MD5TAB, Operations;
    EmptySteps16(w);
    Constants16();
    Stepped(16, INITIAL, Regs(0xF56C7CF1, 0xD6819C6A, 0x5AA53F75, 0x374943A7), w, 1, 5, 0xF61E2562,
            Regs(0x374943A7, 0x1C7D7513, 0xD6819C6A, 0x5AA53F75));
    Stepped(17, INITIAL, Regs(0x374943A7, 0x1C7D7513, 0xD6819C6A, 0x5AA53F75), w, 6, 9, 0xC040B340,
            Regs(0x5AA53F75, 0x7BD57A3A, 0x1C7D7513, 0xD6819C6A));
    Stepped(18, INITIAL, Regs(0x5AA53F75, 0x7BD57A3A, 0x1C7D7513, 0xD6819C6A), w, 11, 14, 0x265E5A51,
            Regs(0xD6819C6A, 0xC095F13A, 0x7BD57A3A, 0x1C7D7513));
    Stepped(19, INITIAL, Regs(0xD6819C6A, 0xC095F13A, 0x7BD57A3A, 0x1C7D7513), w, 0, 20, 0xE9B6C7AA,
            Regs(0x1C7D7513, 0xBD782E17, 0xC095F13A, 0x7BD57A3A));
  }

  lemma EmptySteps24(w: Block16)
    requires w == EmptyWords()
    ensures Operations(24, INITIAL, w) == Regs(0x3D1E3E6C, 0xE422531A, 0xEB41643E, 0x68B7B3E3)
  {
    hide Index, Amount, MD5TAB, Operations;
    EmptySteps20(w);
    Constants20();
    Stepped(20, INITIAL, Regs(0x1C7D7513, 0xBD782E17, 0xC095F13A, 0x7BD57A3A), w, 5, 5, 0xD62F105D,
            Regs(0x7BD57A3A, 0x3D1E3E6C, 0xBD782E17, 0xC095F13A));
    Stepped(21, INITIAL, Regs(0x7BD57A3A, 0x3D1E3E6C, 0xBD782E17, 0xC095F13A), w, 10, 9, 0x02441453,
            Regs(0xC095F13A, 0x68B7B3E3, 0x3D1E3E6C, 0xBD782E17));
    Stepped(22, INITIAL, Regs(0xC095F13A, 0x68B7B3E3, 0x3D1E3E6C, 0xBD782E17), w, 15, 14, 0xD8A1E681,
            Regs(0xBD782E17, 0xEB41643E, 0x68B7B3E3, 0x3D1E3E6C));
    Stepped(23, INITIAL, Regs(0xBD782E17, 0xEB41643E, 0x68B7B3E3, 0x3D1E3E6C), w, 4, 20, 0xE7D3FBC8,
            Regs(0x3D1E3E6C, 0xE422531A, 0xEB41643E, 0x68B7B3E3));
  }

  lemma EmptySteps28(w: Block16)
    requires w == EmptyWords()
    ensures Operations(28, INITIAL, w) == Regs(0x306EC122, 0xA0572807, 0xA3C663DA, 0xD28C77C2)
  {
    hide Index, Amount, MD5TAB, Operations;
    EmptySteps24(w);
    Constants24();
    Stepped(24, INITIAL, Regs(0x3D1E3E6C, 0xE422531A, 0xEB41643E, 0x68B7B3E3), w, 9, 5, 0x21E1CDE6,
            Regs(0x68B7B3E3, 0x306EC122, 0xE422531A, 0xEB41643E));
    Stepped(25, INITIAL, Regs(0x68B7B3E3, 0x306EC122, 0xE422531A, 0xEB41643E), w, 14, 9, 0xC33707D6,
            Regs(0xEB41643E, 0xD28C77C2, 0x306EC122, 0xE422531A));
    Stepped(26, INITIAL, Regs(0xEB41643E, 0xD28C77C2, 0x306EC122, 0xE422531A), w, 3, 14, 0xF4D50D87,
            Regs(0xE422531A, 0xA3C663DA, 0xD28C77C2, 0x306EC122));
    Stepped(27, INITIAL, Regs(0xE422531A, 0xA3C663DA, 0xD28C77C2, 0x306EC122), w, 8, 20, 0x455A14ED,
            Regs(0x306EC122, 0xA0572807, 0xA3C663DA, 0xD28C77C2));
  }

  lemma EmptySteps32(w: Block16)
    requires w == EmptyWords()
    ensures Operations(32, INITIAL, w) == Regs(0x13707036, 0xA2205F1F, 0x1C31C384, 0xAE7813DB)
  {
    hide Index, Amount, MD5TAB, Operations;
    EmptySteps28(w);
    Constants28();
    Stepped(28, INITIAL, Regs(0x306EC122, 0xA0572807, 0xA3C663DA, 0xD28C77C2), w, 13, 5, 0xA9E3E905,
            Regs(0xD28C77C2, 0x13707036, 0xA0572807, 0xA3C663DA));
    Stepped(29, INITIAL, Regs(0xD28C77C2, 0x13707036, 0xA0572807, 0xA3C663DA), w, 2, 9, 0xFCEFA3F8,
            Regs(0xA3C663DA, 0xAE7813DB, 0x13707036, 0xA0572807));
    Stepped(30, INITIAL, Regs(0xA3C663DA, 0xAE7813DB, 0x13707036, 0xA0572807), w, 7, 14, 0x676F02D9,
            Regs(0xA0572807, 0x1C31C384, 0xAE7813DB, 0x13707036));
    Stepped(31, INITIAL, Regs(0xA0572807, 0x1C31C384, 0xAE7813DB, 0x13707036), w, 12, 20, 0x8D2A4C8A,
            Regs(0x13707036, 0xA2205F1F, 0x1C31C384, 0xAE7813DB));
  }

  lemma EmptySteps36(w: Block16)
    requires w == EmptyWords()
    ensures Operations(36, INITIAL, w) == Regs(0xDF63EAA1, 0x004B6669, 0x12F3E755, 0xC3689F5B)
  {
    hide Index, Amount, MD5TAB, Operations;
    EmptySteps32(w);
    Constants32();
    Stepped(32, INITIAL, Regs(0x13707036, 0xA2205F1F, 0x1C31C384, 0xAE7813DB), w, 5, 4, 0xFFFA3942,
            Regs(0xAE7813DB, 0xDF63EAA1, 0xA2205F1F, 0x1C31C384));
    Stepped(33, INITIAL, Regs(0xAE7813DB, 0xDF63EAA1, 0xA2205F1F, 0x1C31C384), w, 8, 11, 0x8771F681,
            Regs(0x1C31C384, 0xC3689F5B, 0xDF63EAA1, 0xA2205F1F));
    Stepped(34, INITIAL, Regs(0x1C31C384, 0xC3689F5B, 0xDF63EAA1, 0xA2205F1F), w, 11, 16, 0x6D9D6122,
            Regs(0xA2205F1F, 0x12F3E755, 0xC3689F5B, 0xDF63EAA1));
    Stepped(35, INITIAL, Regs(0xA2205F1F, 0x12F3E755, 0xC3689F5B, 0xDF63EAA1), w, 14, 23, 0xFDE5380C,
            Regs(0xDF63EAA1, 0x004B6669, 0x12F3E755, 0xC3689F5B));
  }

  lemma EmptySteps40(w: Block16)
    requires w == EmptyWords()
    ensures Operations(40, INITIAL, w) == Regs(0x5F7A9B2E, 0xC5DC8C15, 0x91CA4CB7, 0xABC34E16)
  {
    hide Index, Amount, MD5TAB, Operations;
    EmptySteps36(w);
    Constants36();
    Stepped(36, INITIAL, Regs(0xDF63EAA1, 0x004B6669, 0x12F3E755, 0xC3689F5B), w, 1, 4, 0xA4BEEA44,
            Regs(0xC3689F5B, 0x5F7A9B2E, 0x004B6669, 0x12F3E755));
    Stepped(37, INITIAL, Regs(0xC3689F5B, 0x5F7A9B2E, 0x004B6669, 0x12F3E755), w, 4, 11, 0x4BDECFA9,
            Regs(0x12F3E755, 0xABC34E16, 0x5F7A9B2E, 0x004B6669));
    Stepped(38, INITIAL, Regs(0x12F3E755, 0xABC34E16, 0x5F7A9B2E, 0x004B6669), w, 7, 16, 0xF6BB4B60,
            Regs(0x004B6669, 0x91CA4CB7, 0xABC34E16, 0x5F7A9B2E));
    Stepped(39, INITIAL, Regs(0x004B6669, 0x91CA4CB7, 0xABC34E16, 0x5F7A9B2E), w, 10, 23, 0xBEBFBC70,
            Regs(0x5F7A9B2E, 0xC5DC8C15, 0x91CA4CB7, 0xABC34E16));
  }

  lemma EmptySteps44(w: Block16)
    requires w == EmptyWords()
    ensures Operations(44, INITIAL, w) == Regs(0x4497169D, 0x0FE32453, 0xFD95F243, 0x76FD93D4)
  {
    hide Index, Amount, MD5TAB, Operations;
    EmptySteps40(w);
    Constants40();
    Stepped(40, INITIAL, Regs(0x5F7A9B2E, 0xC5DC8C15, 0x91CA4CB7, 0xABC34E16), w, 13, 4, 0x289B7EC6,
            Regs(0xABC34E16, 0x4497169D, 0xC5DC8C15, 0x91CA4CB7));
    Stepped(41, INITIAL, Regs(0xABC34E16, 0x4497169D, 0xC5DC8C15, 0x91CA4CB7), w, 0, 11, 0xEAA127FA,
            Regs(0x91CA4CB7, 0x76FD93D4, 0x4497169D, 0xC5DC8C15));
    Stepped(42, INITIAL, Regs(0x91CA4CB7, 0x76FD93D4, 0x4497169D, 0xC5DC8C15), w, 3, 16, 0xD4EF3085,
            Regs(0xC5DC8C15, 0xFD95F243, 0x76FD93D4, 0x4497169D));
    Stepped(43, INITIAL, Regs(0xC5DC8C15, 0xFD95F243, 0x76FD93D4, 0x4497169D), w, 6, 23, 0x04881D05,
            Regs(0x4497169D, 0x0FE32453, 0xFD95F243, 0x76FD93D4));
  }

  lemma EmptySteps48(w: Block16)
    requires w == EmptyWords()
    ensures Operations(48, INITIAL, w) == Regs(0x3F55EDFD, 0xCA7D2DBD, 0x68D84EA2, 0x22A31F54)
  {
    hide Index, Amount, MD5TAB, Operations;
    EmptySteps44(w);
    Constants44();
    Stepped(44, INITIAL, Regs(0x4497169D, 0x0FE32453, 0xFD95F243, 0x76FD93D4), w, 9, 4, 0xD9D4D039,
            Regs(0x76FD93D4, 0x3F55EDFD, 0x0FE32453, 0xFD95F243));
    Stepped(45, INITIAL, Regs(0x76FD93D4, 0x3F55EDFD, 0x0FE32453, 0xFD95F243), w, 12, 11, 0xE6DB99E5,
            Regs(0xFD95F243, 0x22A31F54, 0x3F55EDFD, 0x0FE32453));
    Stepped(46, INITIAL, Regs(0xFD95F243, 0x22A31F54, 0x3F55EDFD, 0x0FE32453), w, 15, 16, 0x1FA27CF8,
            Regs(0x0FE32453, 0x68D84EA2, 0x22A31F54, 0x3F55EDFD));
    Stepped(47, INITIAL, Regs(0x0FE32453, 0x68D84EA2, 0x22A31F54, 0x3F55EDFD), w, 2, 23, 0xC4AC5665,
            Regs(0x3F55EDFD, 0xCA7D2DBD, 0x68D84EA2, 0x22A31F54));
  }

  lemma EmptySteps52(w: Block16)
    requires w == EmptyWords()
    ensures Operations(52, INITIAL, w) == Regs(0x93AA2577, 0x561E0689, 0xCD85B8CB, 0x1688DC85)
  {
    hide Index, Amount, MD5TAB, Operations;
    EmptySteps48(w);
    Constants48();
    Stepped(48, INITIAL, Regs(0x3F55EDFD, 0xCA7D2DBD, 0x68D84EA2, 0x22A31F54), w, 0, 6, 0xF4292244,
            Regs(0x22A31F54, 0x93AA2577, 0xCA7D2DBD, 0x68D84EA2));
    Stepped(49, INITIAL, Regs(0x22A31F54, 0x93AA2577, 0xCA7D2DBD, 0x68D84EA2), w, 7, 10, 0x432AFF97,
            Regs(0x68D84EA2, 0x1688DC85, 0x93AA2577, 0xCA7D2DBD));
    Stepped(50, INITIAL, Regs(0x68D84EA2, 0x1688DC85, 0x93AA2577, 0xCA7D2DBD), w, 14, 15, 0xAB9423A7,
            Regs(0xCA7D2DBD, 0xCD85B8CB, 0x1688DC85, 0x93AA2577));
    Stepped(51, INITIAL, Regs(0xCA7D2DBD, 0xCD85B8CB, 0x1688DC85, 0x93AA2577), w, 5, 21, 0xFC93A039,
            Regs(0x93AA2577, 0x561E0689, 0xCD85B8CB, 0x1688DC85));
  }

  lemma EmptySteps56(w: Block16)
    requires w == EmptyWords()
    ensures Operations(56, INITIAL, w) == Regs(0x5625A114, 0x1E77FA61, 0x392AD0D0, 0x3450F42B)
  {
    hide Index, Amount, MD5TAB, Operations;
    EmptySteps52(w);
    Constants52();
    Stepped(52, INITIAL, Regs(0x93AA2577, 0x561E0689, 0xCD85B8CB, 0x1688DC85), w, 12, 6, 0x655B59C3,
            Regs(0x1688DC85, 0x5625A114, 0x561E0689, 0xCD85B8CB));
    Stepped(53, INITIAL, Regs(0x1688DC85, 0x5625A114, 0x561E0689, 0xCD85B8CB), w, 3, 10, 0x8F0CCC92,
            Regs(0xCD85B8CB, 0x3450F42B, 0x5625A114, 0x561E0689));
    Stepped(54, INITIAL, Regs(0xCD85B8CB, 0x3450F42B, 0x5625A114, 0x561E0689), w, 10, 15, 0xFFEFF47D,
            Regs(0x561E0689, 0x392AD0D0, 0x3450F42B, 0x5625A114));
    Stepped(55, INITIAL, Regs(0x561E0689, 0x392AD0D0, 0x3450F42B, 0x5625A114), w, 1, 21, 0x85845DD1,
            Regs(0x5625A114, 0x1E77FA61, 0x392AD0D0, 0x3450F42B));
  }

  lemma EmptySteps60(w: Block16)
    requires w == EmptyWords()
    ensures Operations(60, INITIAL, w) == Regs(0x474A9C8C, 0x30130182, 0x36594B14, 0xDFCE00BC)
  {
    hide Index, Amount, MD5TAB, Operations;
    EmptySteps56(w);
    Constants56();
    Stepped(56, INITIAL, Regs(0x5625A114, 0x1E77FA61, 0x392AD0D0, 0x3450F42B), w, 8, 6, 0x6FA87E4F,
            Regs(0x3450F42B, 0x474A9C8C, 0x1E77FA61, 0x392AD0D0));
    Stepped(57, INITIAL, Regs(0x3450F42B, 0x474A9C8C, 0x1E77FA61, 0x392AD0D0), w, 15, 10, 0xFE2CE6E0,
            Regs(0x392AD0D0, 0xDFCE00BC, 0x474A9C8C, 0x1E77FA61));
    Stepped(58, INITIAL, Regs(0x392AD0D0, 0xDFCE00BC, 0x474A9C8C, 0x1E77FA61), w, 6, 15, 0xA3014314,
            Regs(0x1E77FA61, 0x36594B14, 0xDFCE00BC, 0x474A9C8C));
    Stepped(59, INITIAL, Regs(0x1E77FA61, 0x36594B14, 0xDFCE00BC, 0x474A9C8C), w, 13, 21, 0x4E0811A1,
            Regs(0x474A9C8C, 0x30130182, 0x36594B14, 0xDFCE00BC));
  }

  lemma EmptySteps64(w: Block16)
    requires w == EmptyWords()
    ensures Operations(64, INITIAL, w) == Regs(0x7246FAD3, 0x14E45506, 0xFF4EA3EB, 0x6E10A476)
  {
    hide Index, Amount, MD5TAB, Operations;
    EmptySteps60(w);
    Constants60();
    Stepped(60, INITIAL, Regs(0x474A9C8C, 0x30130182, 0x36594B14, 0xDFCE00BC), w, 4, 6, 0xF7537E82,
            Regs(0xDFCE00BC, 0x7246FAD3, 0x30130182, 0x36594B14));
    Stepped(61, INITIAL, Regs(0xDFCE00BC, 0x7246FAD3, 0x30130182, 0x36594B14), w, 11, 10, 0xBD3AF235,
            Regs(0x36594B14, 0x6E10A476, 0x7246FAD3, 0x30130182));
    Stepped(62, INITIAL, Regs(0x36594B14, 0x6E10A476, 0x7246FAD3, 0x30130182), w, 2, 15, 0x2AD7D2BB,
            Regs(0x30130182, 0xFF4EA3EB, 0x6E10A476, 0x7246FAD3));
    Stepped(63, INITIAL, Regs(0x30130182, 0xFF4EA3EB, 0x6E10A476, 0x7246FAD3), w, 9, 21, 0xEB86D391,
            Regs(0x7246FAD3, 0x14E45506, 0xFF4EA3EB, 0x6E10A476));
  }

  // ---------------------------------------------------------------- abc

  function AbcWords(): Block16 {
    [0x80636261, 0, 0, 0, 0, 0, 0, 0, 0, 0, 0, 0, 0, 0, 0x18, 0]
  }

  lemma AbcSteps1(w: Block16)
    requires w == AbcWords()
    ensures Operations(1, INITIAL, w) == Regs(0x10325476, 0xD6D117B4, 0xEFCDAB89, 0x98BADCFE)
  {
    hide Index, Amount, MD5TAB, Operations;
    Steps0(w);
    Constants0();
    Stepped(0, INITIAL, Regs(0x67452301, 0xEFCDAB89, 0x98BADCFE, 0x10325476), w, 0, 7, 0xD76AA478,
            Regs(0x10325476, 0xD6D117B4, 0xEFCDAB89, 0x98BADCFE));
  }

  lemma AbcSteps2(w: Block16)
    requires w == AbcWords()
    ensures Operations(2, INITIAL, w) == Regs(0x98BADCFE, 0x344A8432, 0xD6D117B4, 0xEFCDAB89)
  {
    hide Index, Amount, MD5TAB, Operations;
    AbcSteps1(w);
    Constants0();
    Stepped(1, INITIAL, Regs(0x10325476, 0xD6D117B4, 0xEFCDAB89, 0x98BADCFE), w, 1, 12, 0xE8C7B756,
            Regs(0x98BADCFE, 0x344A8432, 0xD6D117B4, 0xEFCDAB89));
  }

  lemma AbcSteps3(w: Block16)
    requires w == AbcWords()
    ensures Operations(3, INITIAL, w) == Regs(0xEFCDAB89, 0x2F6FBD72, 0x344A8432, 0xD6D117B4)
  {
    hide Index, Amount, MD5TAB, Operations;
    AbcSteps2(w);
    Constants0();
    Stepped(2, INITIAL, Regs(0x98BADCFE, 0x344A8432, 0xD6D117B4, 0xEFCDAB89), w, 2, 17, 0x242070DB,
            Regs(0xEFCDAB89, 0x2F6FBD72, 0x344A8432, 0xD6D117B4));
  }

  lemma AbcSteps4(w: Block16)
    requires w == AbcWords()
    ensures Operations(4, INITIAL, w) == Regs(0xD6D117B4, 0x7AD956F2, 0x2F6FBD72, 0x344A8432)
  {
    hide Index, Amount, MD5TAB, Operations;
    AbcSteps3(w);
    Constants0();
    Stepped(3, INITIAL, Regs(0xEFCDAB89, 0x2F6FBD72, 0x344A8432, 0xD6D117B4), w, 3, 22, 0xC1BDCEEE,
            Regs(0xD6D117B4, 0x7AD956F2, 0x2F6FBD72, 0x344A8432));
  }

  lemma AbcSteps8(w: Block16)
    requires w == AbcWords()
    ensures Operations(8, INITIAL, w) == Regs(0xC73741EF, 0x928D99F6, 0x207DC67B, 0x8BAC3051)
  {
    hide Index, Amount, MD5TAB, Operations;
    AbcSteps4(w);
    Constants4();
    Stepped(4, INITIAL, Regs(0xD6D117B4, 0x7AD956F2, 0x2F6FBD72, 0x344A8432), w, 4, 7, 0xF57C0FAF,
            Regs(0x344A8432, 0xC73741EF, 0x7AD956F2, 0x2F6FBD72));
    Stepped(5, INITIAL, Regs(0x344A8432, 0xC73741EF, 0x7AD956F2, 0x2F6FBD72), w, 5, 12, 0x4787C62A,
            Regs(0x2F6FBD72, 0x8BAC3051, 0xC73741EF, 0x7AD956F2));
    Stepped(6, INITIAL, Regs(0x2F6FBD72, 0x8BAC3051, 0xC73741EF, 0x7AD956F2), w, 6, 17, 0xA8304613,
            Regs(0x7AD956F2, 0x207DC67B, 0x8BAC3051, 0xC73741EF));
    Stepped(7, INITIAL, Regs(0x7AD956F2, 0x207DC67B, 0x8BAC3051, 0xC73741EF), w, 7, 22, 0xFD469501,
            Regs(0xC73741EF, 0x928D99F6, 0x207DC67B, 0x8BAC3051));
  }

  lemma AbcSteps12(w: Block16)
    requires w == AbcWords()
    ensures Operations(12, INITIAL, w) == Regs(0x854B3712, 0x5ED49596, 0x3020401C, 0x74E2F284)
  {
    hide Index, Amount, MD5TAB, Operations;
    AbcSteps8(w);
    Constants8();
    Stepped(8, INITIAL, Regs(0xC73741EF, 0x928D99F6, 0x207DC67B, 0x8BAC3051), w, 8, 7, 0x698098D8,
            Regs(0x8BAC3051, 0x854B3712, 0x928D99F6, 0x207DC67B));
    Stepped(9, INITIAL, Regs(0x8BAC3051, 0x854B3712, 0x928D99F6, 0x207DC67B), w, 9, 12, 0x8B44F7AF,
            Regs(0x207DC67B, 0x74E2F284, 0x854B3712, 0x928D99F6));
    Stepped(10, INITIAL, Regs(0x207DC67B, 0x74E2F284, 0x854B3712, 0x928D99F6), w, 10, 17, 0xFFFF5BB1,
            Regs(0x928D99F6, 0x3020401C, 0x74E2F284, 0x854B3712));
    Stepped(11, INITIAL, Regs(0x928D99F6, 0x3020401C, 0x74E2F284, 0x854B3712), w, 11, 22, 0x895CD7BE,
            Regs(0x854B3712, 0x5ED49596, 0x3020401C, 0x74E2F284));
  }

  lemma AbcSteps16(w: Block16)
    requires w == AbcWords()
    ensures Operations(16, INITIAL, w) == Regs(0xDDA9B9A6, 0x72AFF2E0, 0xE396856B, 0xA1051895)
  {
    hide Index, Amount, MD5TAB, Operations;
    AbcSteps12(w);
    Constants12();
    Stepped(12, INITIAL, Regs(0x854B3712, 0x5ED49596, 0x3020401C, 0x74E2F284), w, 12, 7, 0x6B901122,
            Regs(0x74E2F284, 0xDDA9B9A6, 0x5ED49596, 0x3020401C));
    Stepped(13, INITIAL, Regs(0x74E2F284, 0xDDA9B9A6, 0x5ED49596, 0x3020401C), w, 13, 12, 0xFD987193,
            Regs(0x3020401C, 0xA1051895, 0xDDA9B9A6, 0x5ED49596));
    Stepped(14, INITIAL, Regs(0x3020401C, 0xA1051895, 0xDDA9B9A6, 0x5ED49596), w, 14, 17, 0xA679438E,
            Regs(0x5ED49596, 0xE396856B, 0xA1051895, 0xDDA9B9A6));
    Stepped(15, INITIAL, Regs(0x5ED49596, 0xE396856B, 0xA1051895, 0xDDA9B9A6), w, 15, 22, 0x49B40821,
            Regs(0xDDA9B9A6, 0x72AFF2E0, 0xE396856B, 0xA1051895));
  }

  lemma AbcSteps20(w: Block16)
    requires w == AbcWords()
    ensures Operations(20, INITIAL, w) == Regs(0x3E9E9126, 0xB5B204E4, 0xE25E1652, 0x4A1D804E)
  {
    hide Index, Amount, MD5TAB, Operations;
    AbcSteps16(w);
    Constants16();
    Stepped(16, INITIAL, Regs(0xDDA9B9A6, 0x72AFF2E0, 0xE396856B, 0xA1051895), w, 1, 5, 0xF61E2562,
            Regs(0xA1051895, 0x3E9E9126, 0x72AFF2E0, 0xE396856B));
    Stepped(17, INITIAL, Regs(0xA1051895, 0x3E9E9126, 0x72AFF2E0, 0xE396856B), w, 6, 9, 0xC040B340,
            Regs(0xE396856B, 0x4A1D804E, 0x3E9E9126, 0x72AFF2E0));
    Stepped(18, INITIAL, Regs(0xE396856B, 0x4A1D804E, 0x3E9E9126, 0x72AFF2E0), w, 11, 14, 0x265E5A51,
            Regs(0x72AFF2E0, 0xE25E1652, 0x4A1D804E, 0x3E9E9126));
    Stepped(19, INITIAL, Regs(0x72AFF2E0, 0xE25E1652, 0x4A1D804E, 0x3E9E9126), w, 0, 20, 0xE9B6C7AA,
            Regs(0x3E9E9126, 0xB5B204E4, 0xE25E1652, 0x4A1D804E));
  }

  lemma AbcSteps24(w: Block16)
    requires w == AbcWords()
    ensures Operations(24, INITIAL, w) == Regs(0x59A8FFDA, 0x47092C07, 0xABFC7920, 0x6D002F1E)
  {
    hide Index, Amount, MD5TAB, Operations;
    AbcSteps20(w);
    Constants20();
    Stepped(20, INITIAL, Regs(0x3E9E9126, 0xB5B204E4, 0xE25E1652, 0x4A1D804E), w, 5, 5, 0xD62F105D,
            Regs(0x4A1D804E, 0x59A8FFDA, 0xB5B204E4, 0xE25E1652));
    Stepped(21, INITIAL, Regs(0x4A1D804E, 0x59A8FFDA, 0xB5B204E4, 0xE25E1652), w, 10, 9, 0x02441453,
            Regs(0xE25E1652, 0x6D002F1E, 0x59A8FFDA, 0xB5B204E4));
    Stepped(22, INITIAL, Regs(0xE25E1652, 0x6D002F1E, 0x59A8FFDA, 0xB5B204E4), w, 15, 14, 0xD8A1E681,
            Regs(0xB5B204E4, 0xABFC7920, 0x6D002F1E, 0x59A8FFDA));
    Stepped(23, INITIAL, Regs(0xB5B204E4, 0xABFC7920, 0x6D002F1E, 0x59A8FFDA), w, 4, 20, 0xE7D3FBC8,
            Regs(0x59A8FFDA, 0x47092C07, 0xABFC7920, 0x6D002F1E));
  }

  lemma AbcSteps28(w: Block16)
    requires w == AbcWords()
    ensures Operations(28, INITIAL, w) == Regs(0xB7F268CF, 0x786ACB8F, 0xFE1623B1, 0x09388EFF)
  {
    hide Index, Amount, MD5TAB, Operations;
    AbcSteps24(w);
    Constants24();
    Stepped(24, INITIAL, Regs(0x59A8FFDA, 0x47092C07, 0xABFC7920, 0x6D002F1E), w, 9, 5, 0x21E1CDE6,
            Regs(0x6D002F1E, 0xB7F268CF, 0x47092C07, 0xABFC7920));
    Stepped(25, INITIAL, Regs(0x6D002F1E, 0xB7F268CF, 0x47092C07, 0xABFC7920), w, 14, 9, 0xC33707D6,
            Regs(0xABFC7920, 0x09388EFF, 0xB7F268CF, 0x47092C07));
    Stepped(26, INITIAL, Regs(0xABFC7920, 0x09388EFF, 0xB7F268CF, 0x47092C07), w, 3, 14, 0xF4D50D87,
            Regs(0x47092C07, 0xFE1623B1, 0x09388EFF, 0xB7F268CF));
    Stepped(27, INITIAL, Regs(0x47092C07, 0xFE1623B1, 0x09388EFF, 0xB7F268CF), w, 8, 20, 0x455A14ED,
            Regs(0xB7F268CF, 0x786ACB8F, 0xFE1623B1, 0x09388EFF));
  }

  lemma AbcSteps32(w: Block16)
    requires w == AbcWords()
    ensures Operations(32, INITIAL, w) == Regs(0x790A77FB, 0x726342D3, 0xA62884AA, 0x9F47E4F8)
  {
    hide Index, Amount, MD5TAB, Operations;
    AbcSteps28(w);
    Constants28();
    Stepped(28, INITIAL, Regs(0xB7F268CF, 0x786ACB8F, 0xFE1623B1, 0x09388EFF), w, 13, 5, 0xA9E3E905,
            Regs(0x09388EFF, 0x790A77FB, 0x786ACB8F, 0xFE1623B1));
    Stepped(29, INITIAL, Regs(0x09388EFF, 0x790A77FB, 0x786ACB8F, 0xFE1623B1), w, 2, 9, 0xFCEFA3F8,
            Regs(0xFE1623B1, 0x9F47E4F8, 0x790A77FB, 0x786ACB8F));
    Stepped(30, INITIAL, Regs(0xFE1623B1, 0x9F47E4F8, 0x790A77FB, 0x786ACB8F), w, 7, 14, 0x676F02D9,
            Regs(0x786ACB8F, 0xA62884AA, 0x9F47E4F8, 0x790A77FB));
    Stepped(31, INITIAL, Regs(0x786ACB8F, 0xA62884AA, 0x9F47E4F8, 0x790A77FB), w, 12, 20, 0x8D2A4C8A,
            Regs(0x790A77FB, 0x726342D3, 0xA62884AA, 0x9F47E4F8));
  }

  lemma AbcSteps36(w: Block16)
    requires w == AbcWords()
    ensures Operations(36, INITIAL, w) == Regs(0xB3707EBF, 0x3B0875C7, 0x8D212FF5, 0x60127B2E)
  {
    hide Index, Amount, MD5TAB, Operations;
    AbcSteps32(w);
    Constants32();
    Stepped(32, INITIAL, Regs(0x790A77FB, 0x726342D3, 0xA62884AA, 0x9F47E4F8), w, 5, 4, 0xFFFA3942,
            Regs(0x9F47E4F8, 0xB3707EBF, 0x726342D3, 0xA62884AA));
    Stepped(33, INITIAL, Regs(0x9F47E4F8, 0xB3707EBF, 0x726342D3, 0xA62884AA), w, 8, 11, 0x8771F681,
            Regs(0xA62884AA, 0x60127B2E, 0xB3707EBF, 0x726342D3));
    Stepped(34, INITIAL, Regs(0xA62884AA, 0x60127B2E, 0xB3707EBF, 0x726342D3), w, 11, 16, 0x6D9D6122,
            Regs(0x726342D3, 0x8D212FF5, 0x60127B2E, 0xB3707EBF));
    Stepped(35, INITIAL, Regs(0x726342D3, 0x8D212FF5, 0x60127B2E, 0xB3707EBF), w, 14, 23, 0xFDE5380C,
            Regs(0xB3707EBF, 0x3B0875C7, 0x8D212FF5, 0x60127B2E));
  }

  lemma AbcSteps40(w: Block16)
    requires w == AbcWords()
    ensures Operations(40, INITIAL, w) == Regs(0x21B117B9, 0x5A2F5EA5, 0x3575227E, 0x6E7429D5)
  {
    hide Index, Amount, MD5TAB, Operations;
    AbcSteps36(w);
    Constants36();
    Stepped(36, INITIAL, Regs(0xB3707EBF, 0x3B0875C7, 0x8D212FF5, 0x60127B2E), w, 1, 4, 0xA4BEEA44,
            Regs(0x60127B2E, 0x21B117B9, 0x3B0875C7, 0x8D212FF5));
    Stepped(37, INITIAL, Regs(0x60127B2E, 0x21B117B9, 0x3B0875C7, 0x8D212FF5), w, 4, 11, 0x4BDECFA9,
            Regs(0x8D212FF5, 0x6E7429D5, 0x21B117B9, 0x3B0875C7));
    Stepped(38, INITIAL, Regs(0x8D212FF5, 0x6E7429D5, 0x21B117B9, 0x3B0875C7), w, 7, 16, 0xF6BB4B60,
            Regs(0x3B0875C7, 0x3575227E, 0x6E7429D5, 0x21B117B9));
    Stepped(39, INITIAL, Regs(0x3B0875C7, 0x3575227E, 0x6E7429D5, 0x21B117B9), w, 10, 23, 0xBEBFBC70,
            Regs(0x21B117B9, 0x5A2F5EA5, 0x3575227E, 0x6E7429D5));
  }

  lemma AbcSteps44(w: Block16)
    requires w == AbcWords()
    ensures Operations(44, INITIAL, w) == Regs(0x11DE1779, 0x4C6124F4, 0x31C465CA, 0xFADCAA38)
  {
    hide Index, Amount, MD5TAB, Operations;
    AbcSteps40(w);
    Constants40();
    Stepped(40, INITIAL, Regs(0x21B117B9, 0x5A2F5EA5, 0x3575227E, 0x6E7429D5), w, 13, 4, 0x289B7EC6,
            Regs(0x6E7429D5, 0x11DE1779, 0x5A2F5EA5, 0x3575227E));
    Stepped(41, INITIAL, Regs(0x6E7429D5, 0x11DE1779, 0x5A2F5EA5, 0x3575227E), w, 0, 11, 0xEAA127FA,
            Regs(0x3575227E, 0xFADCAA38, 0x11DE1779, 0x5A2F5EA5));
    Stepped(42, INITIAL, Regs(0x3575227E, 0xFADCAA38, 0x11DE1779, 0x5A2F5EA5), w, 3, 16, 0xD4EF3085,
            Regs(0x5A2F5EA5, 0x31C465CA, 0xFADCAA38, 0x11DE1779));
    Stepped(43, INITIAL, Regs(0x5A2F5EA5, 0x31C465CA, 0xFADCAA38, 0x11DE1779), w, 6, 23, 0x04881D05,
            Regs(0x11DE1779, 0x4C6124F4, 0x31C465CA, 0xFADCAA38));
  }

  lemma AbcSteps48(w: Block16)
    requires w == AbcWords()
    ensures Operations(48, INITIAL, w) == Regs(0x7F2E507B, 0x7BEB9700, 0x8FAE6399, 0x99D9679D)
  {
    hide Index, Amount, MD5TAB, Operations;
    AbcSteps44(w);
    Constants44();
    Stepped(44, INITIAL, Regs(0x11DE1779, 0x4C6124F4, 0x31C465CA, 0xFADCAA38), w, 9, 4, 0xD9D4D039,
            Regs(0xFADCAA38, 0x7F2E507B, 0x4C6124F4, 0x31C465CA));
    Stepped(45, INITIAL, Regs(0xFADCAA38, 0x7F2E507B, 0x4C6124F4, 0x31C465CA), w, 12, 11, 0xE6DB99E5,
            Regs(0x31C465CA, 0x99D9679D, 0x7F2E507B, 0x4C6124F4));
    Stepped(46, INITIAL, Regs(0x31C465CA, 0x99D9679D, 0x7F2E507B, 0x4C6124F4), w, 15, 16, 0x1FA27CF8,
            Regs(0x4C6124F4, 0x8FAE6399, 0x99D9679D, 0x7F2E507B));
    Stepped(47, INITIAL, Regs(0x4C6124F4, 0x8FAE6399, 0x99D9679D, 0x7F2E507B), w, 2, 23, 0xC4AC5665,
            Regs(0x7F2E507B, 0x7BEB9700, 0x8FAE6399, 0x99D9679D));
  }

  lemma AbcSteps52(w: Block16)
    requires w == AbcWords()
    ensures Operations(52, INITIAL, w) == Regs(0x7B201DF8, 0x8BF025C4, 0xB298CEFD, 0xF4E8E96E)
  {
    hide Index, Amount, MD5TAB, Operations;
    AbcSteps48(w);
    Constants48();
    Stepped(48, INITIAL, Regs(0x7F2E507B, 0x7BEB9700, 0x8FAE6399, 0x99D9679D), w, 0, 6, 0xF4292244,
            Regs(0x99D9679D, 0x7B201DF8, 0x7BEB9700, 0x8FAE6399));
    Stepped(49, INITIAL, Regs(0x99D9679D, 0x7B201DF8, 0x7BEB9700, 0x8FAE6399), w, 7, 10, 0x432AFF97,
            Regs(0x8FAE6399, 0xF4E8E96E, 0x7B201DF8, 0x7BEB9700));
    Stepped(50, INITIAL, Regs(0x8FAE6399, 0xF4E8E96E, 0x7B201DF8, 0x7BEB9700), w, 14, 15, 0xAB9423A7,
            Regs(0x7BEB9700, 0xB298CEFD, 0xF4E8E96E, 0x7B201DF8));
    Stepped(51, INITIAL, Regs(0x7BEB9700, 0xB298CEFD, 0xF4E8E96E, 0x7B201DF8), w, 5, 21, 0xFC93A039,
            Regs(0x7B201DF8, 0x8BF025C4, 0xB298CEFD, 0xF4E8E96E));
  }

  lemma AbcSteps56(w: Block16)
    requires w == AbcWords()
    ensures Operations(56, INITIAL, w) == Regs(0x06CC5E8A, 0x3BFA2C27, 0x7D632DD0, 0x5B0D97AA)
  {
    hide Index, Amount, MD5TAB, Operations;
    AbcSteps52(w);
    Constants52();
    Stepped(52, INITIAL, Regs(0x7B201DF8, 0x8BF025C4, 0xB298CEFD, 0xF4E8E96E), w, 12, 6, 0x655B59C3,
            Regs(0xF4E8E96E, 0x06CC5E8A, 0x8BF025C4, 0xB298CEFD));
    Stepped(53, INITIAL, Regs(0xF4E8E96E, 0x06CC5E8A, 0x8BF025C4, 0xB298CEFD), w, 3, 10, 0x8F0CCC92,
            Regs(0xB298CEFD, 0x5B0D97AA, 0x06CC5E8A, 0x8BF025C4));
    Stepped(54, INITIAL, Regs(0xB298CEFD, 0x5B0D97AA, 0x06CC5E8A, 0x8BF025C4), w, 10, 15, 0xFFEFF47D,
            Regs(0x8BF025C4, 0x7D632DD0, 0x5B0D97AA, 0x06CC5E8A));
    Stepped(55, INITIAL, Regs(0x8BF025C4, 0x7D632DD0, 0x5B0D97AA, 0x06CC5E8A), w, 1, 21, 0x85845DD1,
            Regs(0x06CC5E8A, 0x3BFA2C27, 0x7D632DD0, 0x5B0D97AA));
  }

  lemma AbcSteps60(w: Block16)
    requires w == AbcWords()
    ensures Operations(60, INITIAL, w) == Regs(0x7F81CC35, 0x7327D604, 0x4F9DBE3F, 0x094454AB)
  {
    hide Index, Amount, MD5TAB, Operations;
    AbcSteps56(w);
    Constants56();
    Stepped(56, INITIAL, Regs(0x06CC5E8A, 0x3BFA2C27, 0x7D632DD0, 0x5B0D97AA), w, 8, 6, 0x6FA87E4F,
            Regs(0x5B0D97AA, 0x7F81CC35, 0x3BFA2C27, 0x7D632DD0));
    Stepped(57, INITIAL, Regs(0x5B0D97AA, 0x7F81CC35, 0x3BFA2C27, 0x7D632DD0), w, 15, 10, 0xFE2CE6E0,
            Regs(0x7D632DD0, 0x094454AB, 0x7F81CC35, 0x3BFA2C27));
    Stepped(58, INITIAL, Regs(0x7D632DD0, 0x094454AB, 0x7F81CC35, 0x3BFA2C27), w, 6, 15, 0xA3014314,
            Regs(0x3BFA2C27, 0x4F9DBE3F, 0x094454AB, 0x7F81CC35));
    Stepped(59, INITIAL, Regs(0x3BFA2C27, 0x4F9DBE3F, 0x094454AB, 0x7F81CC35), w, 13, 21, 0x4E0811A1,
            Regs(0x7F81CC35, 0x7327D604, 0x4F9DBE3F, 0x094454AB));
  }

  lemma AbcSteps64(w: Block16)
    requires w == AbcWords()
    ensures Operations(64, INITIAL, w) == Regs(0x310ADE8F, 0xC08226B3, 0xE484B9D8, 0x624D8CB2)
  {
    hide Index, Amount, MD5TAB, Operations;
    AbcSteps60(w);
    Constants60();
    Stepped(60, INITIAL, Regs(0x7F81CC35, 0x7327D604, 0x4F9DBE3F, 0x094454AB), w, 4, 6, 0xF7537E82,
            Regs(0x094454AB, 0x310ADE8F, 0x7327D604, 0x4F9DBE3F));
    Stepped(61, INITIAL, Regs(0x094454AB, 0x310ADE8F, 0x7327D604, 0x4F9DBE3F), w, 11, 10, 0xBD3AF235,
            Regs(0x4F9DBE3F, 0x624D8CB2, 0x310ADE8F, 0x7327D604));
    Stepped(62, INITIAL, Regs(0x4F9DBE3F, 0x624D8CB2, 0x310ADE8F, 0x7327D604), w, 2, 15, 0x2AD7D2BB,
            Regs(0x7327D604, 0xE484B9D8, 0x624D8CB2, 0x310ADE8F));
    Stepped(63, INITIAL, Regs(0x7327D604, 0xE484B9D8, 0x624D8CB2, 0x310ADE8F), w, 9, 21, 0xEB86D391,
            Regs(0x310ADE8F, 0xC08226B3, 0xE484B9D8, 0x624D8CB2));
  }

  lemma EmptyCompressed(w: Block16)
    requires w == EmptyWords()
    ensures CompressWords(INITIAL, w) == Regs(0xD98C1DD4, 0x04B2008F, 0x980980E9, 0x7E42F8EC)
  {
    hide Operations, EmptyWords;
    EmptySteps64(w);
  }

  lemma EmptyPadded()
    ensures |RfcPadded([])| == 64 && Decode(RfcPadded([])) == EmptyWords()
  {
    var p := RfcPadded([]);
    EmptyBytes();
    Zeroes();
    hide RfcPadded, FromBytes;
    forall i | 0 <= i < 16
      ensures Decode(p)[i] == EmptyWords()[i]
    {
    }
  }

  lemma EmptyBytes()
    ensures var p := RfcPadded([]);
            |p| == 64 && (forall j :: 0 < j < 56 ==> p[j] == 0) && p[0] == 0x80
            && p[56] == 0x0 && (forall j :: 57 <= j < 64 ==> p[j] == 0)
  {
    hide LengthBytes, RfcPadded;
    ShortPadded([]);
    LengthOf(0);
    var p := RfcPadded([]);
    forall j | 56 <= j < 64
      ensures p[j] == LengthBytes(0)[j - 56]
    {
      assert p[56..][j - 56] == p[j];
    }
  }

  /** MD5("") */
  lemma EmptyDigest()
    ensures RfcDigest([])
         == [0xD4, 0x1D, 0x8C, 0xD9, 0x8F, 0x00, 0xB2, 0x04,
             0xE9, 0x80, 0x09, 0x98, 0xEC, 0xF8, 0x42, 0x7E]
  {
    hide RfcPadded, CompressWords, Decode, DigestBytes, Fold;
    EmptyPadded();
    EmptyCompressed(EmptyWords());
    FoldOne(INITIAL, RfcPadded([]));
    EmptyFinal();
  }

  lemma EmptyFinal()
    ensures DigestBytes(Regs(0xD98C1DD4, 0x04B2008F, 0x980980E9, 0x7E42F8EC))
         == [0xD4, 0x1D, 0x8C, 0xD9, 0x8F, 0x00, 0xB2, 0x04,
             0xE9, 0x80, 0x09, 0x98, 0xEC, 0xF8, 0x42, 0x7E]
  {
  }

  lemma AbcCompressed(w: Block16)
    requires w == AbcWords()
    ensures CompressWords(INITIAL, w) == Regs(0x98500190, 0xB04FD23C, 0x7D3F96D6, 0x727FE128)
  {
    hide Operations, AbcWords;
    AbcSteps64(w);
  }

  lemma AbcPadded()
    ensures |RfcPadded([0x61, 0x62, 0x63])| == 64 && Decode(RfcPadded([0x61, 0x62, 0x63])) == AbcWords()
  {
    var p := RfcPadded([0x61, 0x62, 0x63]);
    AbcBytes();
    Zeroes();
    hide RfcPadded, FromBytes;
    forall i | 0 <= i < 16
      ensures Decode(p)[i] == AbcWords()[i]
    {
    }
  }

  lemma AbcBytes()
    ensures var p := RfcPadded([0x61, 0x62, 0x63]);
            |p| == 64 && (forall j :: 3 < j < 56 ==> p[j] == 0) && p[3] == 0x80
            && p[56] == 0x18 && (forall j :: 57 <= j < 64 ==> p[j] == 0)
            && p[0] == 0x61 && p[1] == 0x62 && p[2] == 0x63
  {
    hide LengthBytes, RfcPadded;
    ShortPadded([0x61, 0x62, 0x63]);
    LengthOf(24);
    var p := RfcPadded([0x61, 0x62, 0x63]);
    forall j | 56 <= j < 64
      ensures p[j] == LengthBytes(24)[j - 56]
    {
      assert p[56..][j - 56] == p[j];
    }
  }

  /** MD5("abc") */
  lemma AbcDigest()
    ensures RfcDigest([0x61, 0x62, 0x63])
         == [0x90, 0x01, 0x50, 0x98, 0x3C, 0xD2, 0x4F, 0xB0,
             0xD6, 0x96, 0x3F, 0x7D, 0x28, 0xE1, 0x7F, 0x72]
  {
    hide RfcPadded, CompressWords, Decode, DigestBytes, Fold;
    AbcPadded();
    AbcCompressed(AbcWords());
    FoldOne(INITIAL, RfcPadded([0x61, 0x62, 0x63]));
    AbcFinal();
  }

  lemma AbcFinal()
    ensures DigestBytes(Regs(0x98500190, 0xB04FD23C, 0x7D3F96D6, 0x727FE128))
         == [0x90, 0x01, 0x50, 0x98, 0x3C, 0xD2, 0x4F, 0xB0,
             0xD6, 0x96, 0x3F, 0x7D, 0x28, 0xE1, 0x7F, 0x72]
  {
  }

  lemma ShortPadded(m: seq<Byte>)
    requires |m| < 56
    ensures var p, n := RfcPadded(m), |m|;
            && |p| == 64 && p[..n] == m && p[n] == 0x80 && (forall j :: n < j < 56 ==> p[j] == 0)
            && p[56..] == LengthBytes(8 * n)
  {
    hide LengthBytes;
    assert Zeros(|m|) == 55 - |m| && 8 * |m| % TWO_64 == 8 * |m|;
  }

  lemma Zeroes()
    ensures FromBytes(0, 0, 0, 0) == 0 && FromBytes(0x80, 0, 0, 0) == 0x80
    ensures FromBytes(0x18, 0, 0, 0) == 0x18 && FromBytes(0x61, 0x62, 0x63, 0x80) == 0x8063_6261
  {
  }

  lemma LengthOf(n: nat)
    requires n < 256
    ensures LengthBytes(n) == [Low(n), Low(0), Low(0), Low(0), Low(0), Low(0), Low(0), Low(0)]
    ensures Low(0) == 0 && Low(24) == 0x18
  {
    hide Low;
    LowZero();
    LowTwentyFour();
  }

  lemma LowZero()
    ensures Low(0) == 0
  {
  }

  lemma LowTwentyFour()
    ensures Low(24) == 0x18
  {
  }

  /** So the code's digest of the two messages, in one call. */
  lemma OneCallVectors()
    ensures DigestBytes(Finished(Absorb(START, [])).hash) == RfcDigest([])
    ensures DigestBytes(Finished(Absorb(START, [0x61, 0x62, 0x63])).hash) == RfcDigest([0x61, 0x62, 0x63])
  {
    hide Absorb, Finished, RfcDigest, DigestBytes;
    OneCallDigest([]);
    OneCallDigest([0x61, 0x62, 0x63]);
  }
}
