/** The example of FIPS 197, Appendix B: the key schedule of its key (Appendix A.1) and the encryption of
    its input, round by round.  States are written row by row. */
module AesVectors {
  import opened AesBox
  import opened AesField
  import opened AesRounds
  import opened AesFips
  import opened AesKeys

  const INPUT: Block := [0x32, 0x43, 0xf6, 0xa8, 0x88, 0x5a, 0x30, 0x8d, 0x31, 0x31, 0x98, 0xa2, 0xe0, 0x37, 0x07, 0x34]
  const OUTPUT: Block := [0x39, 0x25, 0x84, 0x1d, 0x02, 0xdc, 0x09, 0xfb,
      0xdc, 0x11, 0x85, 0x97, 0x19, 0x6a, 0x0b, 0x32]

  /** Round keys; the first is the cipher key. */
  const KEY_0: seq<bv32> := [0x2b7e1516, 0x28aed2a6, 0xabf71588, 0x09cf4f3c]
  const KEY_1: seq<bv32> := [0xa0fafe17, 0x88542cb1, 0x23a33939, 0x2a6c7605]
  const KEY_2: seq<bv32> := [0xf2c295f2, 0x7a96b943, 0x5935807a, 0x7359f67f]
  const KEY_3: seq<bv32> := [0x3d80477d, 0x4716fe3e, 0x1e237e44, 0x6d7a883b]
  const KEY_4: seq<bv32> := [0xef44a541, 0xa8525b7f, 0xb671253b, 0xdb0bad00]
  const KEY_5: seq<bv32> := [0xd4d1c6f8, 0x7c839d87, 0xcaf2b8bc, 0x11f915bc]
  const KEY_6: seq<bv32> := [0x6d88a37a, 0x110b3efd, 0xdbf98641, 0xca0093fd]
  const KEY_7: seq<bv32> := [0x4e54f70e, 0x5f5fc9f3, 0x84a64fb2, 0x4ea6dc4f]
  const KEY_8: seq<bv32> := [0xead27321, 0xb58dbad2, 0x312bf560, 0x7f8d292f]
  const KEY_9: seq<bv32> := [0xac7766f3, 0x19fadc21, 0x28d12941, 0x575c006e]
  const KEY_10: seq<bv32> := [0xd014f9a8, 0xc9ee2589, 0xe13f0cc8, 0xb6630ca6]

  /** The state at the start of each round. */
  const START_1: Block := [0x19, 0xa0, 0x9a, 0xe9, 0x3d, 0xf4, 0xc6, 0xf8,
      0xe3, 0xe2, 0x8d, 0x48, 0xbe, 0x2b, 0x2a, 0x08]
  const START_2: Block := [0xa4, 0x68, 0x6b, 0x02, 0x9c, 0x9f, 0x5b, 0x6a,
      0x7f, 0x35, 0xea, 0x50, 0xf2, 0x2b, 0x43, 0x49]
  const START_3: Block := [0xaa, 0x61, 0x82, 0x68, 0x8f, 0xdd, 0xd2, 0x32,
      0x5f, 0xe3, 0x4a, 0x46, 0x03, 0xef, 0xd2, 0x9a]
  const START_4: Block := [0x48, 0x67, 0x4d, 0xd6, 0x6c, 0x1d, 0xe3, 0x5f,
      0x4e, 0x9d, 0xb1, 0x58, 0xee, 0x0d, 0x38, 0xe7]
  const START_5: Block := [0xe0, 0xc8, 0xd9, 0x85, 0x92, 0x63, 0xb1, 0xb8,
      0x7f, 0x63, 0x35, 0xbe, 0xe8, 0xc0, 0x50, 0x01]
  const START_6: Block := [0xf1, 0xc1, 0x7c, 0x5d, 0x00, 0x92, 0xc8, 0xb5,
      0x6f, 0x4c, 0x8b, 0xd5, 0x55, 0xef, 0x32, 0x0c]
  const START_7: Block := [0x26, 0x3d, 0xe8, 0xfd, 0x0e, 0x41, 0x64, 0xd2,
      0x2e, 0xb7, 0x72, 0x8b, 0x17, 0x7d, 0xa9, 0x25]
  const START_8: Block := [0x5a, 0x19, 0xa3, 0x7a, 0x41, 0x49, 0xe0, 0x8c,
      0x42, 0xdc, 0x19, 0x04, 0xb1, 0x1f, 0x65, 0x0c]
  const START_9: Block := [0xea, 0x04, 0x65, 0x85, 0x83, 0x45, 0x5d, 0x96,
      0x5c, 0x33, 0x98, 0xb0, 0xf0, 0x2d, 0xad, 0xc5]
  const START_10: Block := [0xeb, 0x59, 0x8b, 0x1b, 0x40, 0x2e, 0xa1, 0xc3,
      0xf2, 0x38, 0x13, 0x42, 0x1e, 0x84, 0xe7, 0xd2]

  /** After subBytes. */
  const BOXED_1: Block := [0xd4, 0xe0, 0xb8, 0x1e, 0x27, 0xbf, 0xb4, 0x41,
      0x11, 0x98, 0x5d, 0x52, 0xae, 0xf1, 0xe5, 0x30]
  const BOXED_2: Block := [0x49, 0x45, 0x7f, 0x77, 0xde, 0xdb, 0x39, 0x02,
      0xd2, 0x96, 0x87, 0x53, 0x89, 0xf1, 0x1a, 0x3b]
  const BOXED_3: Block := [0xac, 0xef, 0x13, 0x45, 0x73, 0xc1, 0xb5, 0x23,
      0xcf, 0x11, 0xd6, 0x5a, 0x7b, 0xdf, 0xb5, 0xb8]
  const BOXED_4: Block := [0x52, 0x85, 0xe3, 0xf6, 0x50, 0xa4, 0x11, 0xcf,
      0x2f, 0x5e, 0xc8, 0x6a, 0x28, 0xd7, 0x07, 0x94]
  const BOXED_5: Block := [0xe1, 0xe8, 0x35, 0x97, 0x4f, 0xfb, 0xc8, 0x6c,
      0xd2, 0xfb, 0x96, 0xae, 0x9b, 0xba, 0x53, 0x7c]
  const BOXED_6: Block := [0xa1, 0x78, 0x10, 0x4c, 0x63, 0x4f, 0xe8, 0xd5,
      0xa8, 0x29, 0x3d, 0x03, 0xfc, 0xdf, 0x23, 0xfe]
  const BOXED_7: Block := [0xf7, 0x27, 0x9b, 0x54, 0xab, 0x83, 0x43, 0xb5,
      0x31, 0xa9, 0x40, 0x3d, 0xf0, 0xff, 0xd3, 0x3f]
  const BOXED_8: Block := [0xbe, 0xd4, 0x0a, 0xda, 0x83, 0x3b, 0xe1, 0x64,
      0x2c, 0x86, 0xd4, 0xf2, 0xc8, 0xc0, 0x4d, 0xfe]
  const BOXED_9: Block := [0x87, 0xf2, 0x4d, 0x97, 0xec, 0x6e, 0x4c, 0x90,
      0x4a, 0xc3, 0x46, 0xe7, 0x8c, 0xd8, 0x95, 0xa6]
  const BOXED_10: Block := [0xe9, 0xcb, 0x3d, 0xaf, 0x09, 0x31, 0x32, 0x2e,
      0x89, 0x07, 0x7d, 0x2c, 0x72, 0x5f, 0x94, 0xb5]

  /** After mixColumns. */
  const MIXED_1: Block := [0x04, 0xe0, 0x48, 0x28, 0x66, 0xcb, 0xf8, 0x06,
      0x81, 0x19, 0xd3, 0x26, 0xe5, 0x9a, 0x7a, 0x4c]
  const MIXED_2: Block := [0x58, 0x1b, 0xdb, 0x1b, 0x4d, 0x4b, 0xe7, 0x6b,
      0xca, 0x5a, 0xca, 0xb0, 0xf1, 0xac, 0xa8, 0xe5]
  const MIXED_3: Block := [0x75, 0x20, 0x53, 0xbb, 0xec, 0x0b, 0xc0, 0x25,
      0x09, 0x63, 0xcf, 0xd0, 0x93, 0x33, 0x7c, 0xdc]
  const MIXED_4: Block := [0x0f, 0x60, 0x6f, 0x5e, 0xd6, 0x31, 0xc0, 0xb3,
      0xda, 0x38, 0x10, 0x13, 0xa9, 0xbf, 0x6b, 0x01]
  const MIXED_5: Block := [0x25, 0xbd, 0xb6, 0x4c, 0xd1, 0x11, 0x3a, 0x4c,
      0xa9, 0xd1, 0x33, 0xc0, 0xad, 0x68, 0x8e, 0xb0]
  const MIXED_6: Block := [0x4b, 0x2c, 0x33, 0x37, 0x86, 0x4a, 0x9d, 0xd2,
      0x8d, 0x89, 0xf4, 0x18, 0x6d, 0x80, 0xe8, 0xd8]
  const MIXED_7: Block := [0x14, 0x46, 0x27, 0x34, 0x15, 0x16, 0x46, 0x2a,
      0xb5, 0x15, 0x56, 0xd8, 0xbf, 0xec, 0xd7, 0x43]
  const MIXED_8: Block := [0x00, 0xb1, 0x54, 0xfa, 0x51, 0xc8, 0x76, 0x1b,
      0x2f, 0x89, 0x6d, 0x99, 0xd1, 0xff, 0xcd, 0xea]
  const MIXED_9: Block := [0x47, 0x40, 0xa3, 0x4c, 0x37, 0xd4, 0x70, 0x9f,
      0x94, 0xe4, 0x3a, 0x42, 0xed, 0xa5, 0xa6, 0xbc]

  // ---- The key schedule ----

  /** Round key `b` comes from round key `a`. */
  predicate Follows(a: seq<bv32>, b: seq<bv32>, rcon: bv32)
    requires |a| == |b| == 4
  {
    && b[0] == Xor(a[0], Xor(SubWord(RotWord(a[3])), rcon))
    && b[1] == Xor(a[1], b[0]) && b[2] == Xor(a[2], b[1]) && b[3] == Xor(a[3], b[2])
  }

  lemma Follows1() ensures Follows(KEY_0, KEY_1, RCON[1]) {}
  lemma Follows2() ensures Follows(KEY_1, KEY_2, RCON[2]) {}
  lemma Follows3() ensures Follows(KEY_2, KEY_3, RCON[3]) {}
  lemma Follows4() ensures Follows(KEY_3, KEY_4, RCON[4]) {}
  lemma Follows5() ensures Follows(KEY_4, KEY_5, RCON[5]) {}
  lemma Follows6() ensures Follows(KEY_5, KEY_6, RCON[6]) {}
  lemma Follows7() ensures Follows(KEY_6, KEY_7, RCON[7]) {}
  lemma Follows8() ensures Follows(KEY_7, KEY_8, RCON[8]) {}
  lemma Follows9() ensures Follows(KEY_8, KEY_9, RCON[9]) {}
  lemma Follows10() ensures Follows(KEY_9, KEY_10, RCON[10]) {}

  // ---- The rounds ----

  /** The table turns the first four bytes into the other four. */
  predicate Box4(a: bv8, b: bv8, c: bv8, d: bv8, e: bv8, f: bv8, g: bv8, h: bv8) {
    SBox(a) == e && SBox(b) == f && SBox(c) == g && SBox(d) == h
  }

  lemma SubIs(s: Block, t: Block)
    requires Box4(s[0], s[1], s[2], s[3], t[0], t[1], t[2], t[3])
    requires Box4(s[4], s[5], s[6], s[7], t[4], t[5], t[6], t[7])
    requires Box4(s[8], s[9], s[10], s[11], t[8], t[9], t[10], t[11])
    requires Box4(s[12], s[13], s[14], s[15], t[12], t[13], t[14], t[15])
    ensures SubBytes(s) == t
  {
    hide SBox;
  }

  lemma Row1a() ensures Box4(0x19, 0xa0, 0x9a, 0xe9, 0xd4, 0xe0, 0xb8, 0x1e) {}
  lemma Row1b() ensures Box4(0x3d, 0xf4, 0xc6, 0xf8, 0x27, 0xbf, 0xb4, 0x41) {}
  lemma Row1c() ensures Box4(0xe3, 0xe2, 0x8d, 0x48, 0x11, 0x98, 0x5d, 0x52) {}
  lemma Row1d() ensures Box4(0xbe, 0x2b, 0x2a, 0x08, 0xae, 0xf1, 0xe5, 0x30) {}

  lemma Boxed1()
    ensures SubBytes(START_1) == BOXED_1
  {
    hide SubBytes, Box4, SBox;
    Row1a(); Row1b(); Row1c(); Row1d();
    SubIs(START_1, BOXED_1);
  }

  lemma Row2a() ensures Box4(0xa4, 0x68, 0x6b, 0x02, 0x49, 0x45, 0x7f, 0x77) {}
  lemma Row2b() ensures Box4(0x9c, 0x9f, 0x5b, 0x6a, 0xde, 0xdb, 0x39, 0x02) {}
  lemma Row2c() ensures Box4(0x7f, 0x35, 0xea, 0x50, 0xd2, 0x96, 0x87, 0x53) {}
  lemma Row2d() ensures Box4(0xf2, 0x2b, 0x43, 0x49, 0x89, 0xf1, 0x1a, 0x3b) {}

  lemma Boxed2()
    ensures SubBytes(START_2) == BOXED_2
  {
    hide SubBytes, Box4, SBox;
    Row2a(); Row2b(); Row2c(); Row2d();
    SubIs(START_2, BOXED_2);
  }

  lemma Row3a() ensures Box4(0xaa, 0x61, 0x82, 0x68, 0xac, 0xef, 0x13, 0x45) {}
  lemma Row3b() ensures Box4(0x8f, 0xdd, 0xd2, 0x32, 0x73, 0xc1, 0xb5, 0x23) {}
  lemma Row3c() ensures Box4(0x5f, 0xe3, 0x4a, 0x46, 0xcf, 0x11, 0xd6, 0x5a) {}
  lemma Row3d() ensures Box4(0x03, 0xef, 0xd2, 0x9a, 0x7b, 0xdf, 0xb5, 0xb8) {}

  lemma Boxed3()
    ensures SubBytes(START_3) == BOXED_3
  {
    hide SubBytes, Box4, SBox;
    Row3a(); Row3b(); Row3c(); Row3d();
    SubIs(START_3, BOXED_3);
  }

  lemma Row4a() ensures Box4(0x48, 0x67, 0x4d, 0xd6, 0x52, 0x85, 0xe3, 0xf6) {}
  lemma Row4b() ensures Box4(0x6c, 0x1d, 0xe3, 0x5f, 0x50, 0xa4, 0x11, 0xcf) {}
  lemma Row4c() ensures Box4(0x4e, 0x9d, 0xb1, 0x58, 0x2f, 0x5e, 0xc8, 0x6a) {}
  lemma Row4d() ensures Box4(0xee, 0x0d, 0x38, 0xe7, 0x28, 0xd7, 0x07, 0x94) {}

  lemma Boxed4()
    ensures SubBytes(START_4) == BOXED_4
  {
    hide SubBytes, Box4, SBox;
    Row4a(); Row4b(); Row4c(); Row4d();
    SubIs(START_4, BOXED_4);
  }

  lemma Row5a() ensures Box4(0xe0, 0xc8, 0xd9, 0x85, 0xe1, 0xe8, 0x35, 0x97) {}
  lemma Row5b() ensures Box4(0x92, 0x63, 0xb1, 0xb8, 0x4f, 0xfb, 0xc8, 0x6c) {}
  lemma Row5c() ensures Box4(0x7f, 0x63, 0x35, 0xbe, 0xd2, 0xfb, 0x96, 0xae) {}
  lemma Row5d() ensures Box4(0xe8, 0xc0, 0x50, 0x01, 0x9b, 0xba, 0x53, 0x7c) {}

  lemma Boxed5()
    ensures SubBytes(START_5) == BOXED_5
  {
    hide SubBytes, Box4, SBox;
    Row5a(); Row5b(); Row5c(); Row5d();
    SubIs(START_5, BOXED_5);
  }

  lemma Row6a() ensures Box4(0xf1, 0xc1, 0x7c, 0x5d, 0xa1, 0x78, 0x10, 0x4c) {}
  lemma Row6b() ensures Box4(0x00, 0x92, 0xc8, 0xb5, 0x63, 0x4f, 0xe8, 0xd5) {}
  lemma Row6c() ensures Box4(0x6f, 0x4c, 0x8b, 0xd5, 0xa8, 0x29, 0x3d, 0x03) {}
  lemma Row6d() ensures Box4(0x55, 0xef, 0x32, 0x0c, 0xfc, 0xdf, 0x23, 0xfe) {}

  lemma Boxed6()
    ensures SubBytes(START_6) == BOXED_6
  {
    hide SubBytes, Box4, SBox;
    Row6a(); Row6b(); Row6c(); Row6d();
    SubIs(START_6, BOXED_6);
  }

  lemma Row7a() ensures Box4(0x26, 0x3d, 0xe8, 0xfd, 0xf7, 0x27, 0x9b, 0x54) {}
  lemma Row7b() ensures Box4(0x0e, 0x41, 0x64, 0xd2, 0xab, 0x83, 0x43, 0xb5) {}
  lemma Row7c() ensures Box4(0x2e, 0xb7, 0x72, 0x8b, 0x31, 0xa9, 0x40, 0x3d) {}
  lemma Row7d() ensures Box4(0x17, 0x7d, 0xa9, 0x25, 0xf0, 0xff, 0xd3, 0x3f) {}

  lemma Boxed7()
    ensures SubBytes(START_7) == BOXED_7
  {
    hide SubBytes, Box4, SBox;
    Row7a(); Row7b(); Row7c(); Row7d();
    SubIs(START_7, BOXED_7);
  }

  lemma Row8a() ensures Box4(0x5a, 0x19, 0xa3, 0x7a, 0xbe, 0xd4, 0x0a, 0xda) {}
  lemma Row8b() ensures Box4(0x41, 0x49, 0xe0, 0x8c, 0x83, 0x3b, 0xe1, 0x64) {}
  lemma Row8c() ensures Box4(0x42, 0xdc, 0x19, 0x04, 0x2c, 0x86, 0xd4, 0xf2) {}
  lemma Row8d() ensures Box4(0xb1, 0x1f, 0x65, 0x0c, 0xc8, 0xc0, 0x4d, 0xfe) {}

  lemma Boxed8()
    ensures SubBytes(START_8) == BOXED_8
  {
    hide SubBytes, Box4, SBox;
    Row8a(); Row8b(); Row8c(); Row8d();
    SubIs(START_8, BOXED_8);
  }

  lemma Row9a() ensures Box4(0xea, 0x04, 0x65, 0x85, 0x87, 0xf2, 0x4d, 0x97) {}
  lemma Row9b() ensures Box4(0x83, 0x45, 0x5d, 0x96, 0xec, 0x6e, 0x4c, 0x90) {}
  lemma Row9c() ensures Box4(0x5c, 0x33, 0x98, 0xb0, 0x4a, 0xc3, 0x46, 0xe7) {}
  lemma Row9d() ensures Box4(0xf0, 0x2d, 0xad, 0xc5, 0x8c, 0xd8, 0x95, 0xa6) {}

  lemma Boxed9()
    ensures SubBytes(START_9) == BOXED_9
  {
    hide SubBytes, Box4, SBox;
    Row9a(); Row9b(); Row9c(); Row9d();
    SubIs(START_9, BOXED_9);
  }

  lemma Row10a() ensures Box4(0xeb, 0x59, 0x8b, 0x1b, 0xe9, 0xcb, 0x3d, 0xaf) {}
  lemma Row10b() ensures Box4(0x40, 0x2e, 0xa1, 0xc3, 0x09, 0x31, 0x32, 0x2e) {}
  lemma Row10c() ensures Box4(0xf2, 0x38, 0x13, 0x42, 0x89, 0x07, 0x7d, 0x2c) {}
  lemma Row10d() ensures Box4(0x1e, 0x84, 0xe7, 0xd2, 0x72, 0x5f, 0x94, 0xb5) {}

  lemma Boxed10()
    ensures SubBytes(START_10) == BOXED_10
  {
    hide SubBytes, Box4, SBox;
    Row10a(); Row10b(); Row10c(); Row10d();
    SubIs(START_10, BOXED_10);
  }


  /** All sixteen entries of the mixed state. */
  lemma MixFour(s: Block)
    ensures var m := MixColumns(s);
            && m[0] == Add4(Twice(s[0]), Thrice(s[4]), s[8], s[12])
            && m[4] == Add4(s[0], Twice(s[4]), Thrice(s[8]), s[12])
            && m[8] == Add4(s[0], s[4], Twice(s[8]), Thrice(s[12]))
            && m[12] == Add4(Thrice(s[0]), s[4], s[8], Twice(s[12]))
    ensures var m := MixColumns(s);
            && m[1] == Add4(Twice(s[1]), Thrice(s[5]), s[9], s[13])
            && m[5] == Add4(s[1], Twice(s[5]), Thrice(s[9]), s[13])
            && m[9] == Add4(s[1], s[5], Twice(s[9]), Thrice(s[13]))
            && m[13] == Add4(Thrice(s[1]), s[5], s[9], Twice(s[13]))
    ensures var m := MixColumns(s);
            && m[2] == Add4(Twice(s[2]), Thrice(s[6]), s[10], s[14])
            && m[6] == Add4(s[2], Twice(s[6]), Thrice(s[10]), s[14])
            && m[10] == Add4(s[2], s[6], Twice(s[10]), Thrice(s[14]))
            && m[14] == Add4(Thrice(s[2]), s[6], s[10], Twice(s[14]))
    ensures var m := MixColumns(s);
            && m[3] == Add4(Twice(s[3]), Thrice(s[7]), s[11], s[15])
            && m[7] == Add4(s[3], Twice(s[7]), Thrice(s[11]), s[15])
            && m[11] == Add4(s[3], s[7], Twice(s[11]), Thrice(s[15]))
            && m[15] == Add4(Thrice(s[3]), s[7], s[11], Twice(s[15]))
  {
    hide MixColumns, Twice, Thrice, Add4;
    MixIsDefined(s, 0);
    MixIsDefined(s, 1);
    MixIsDefined(s, 2);
    MixIsDefined(s, 3);
  }

  lemma Mixed1() ensures MixColumns(ShiftRows(BOXED_1)) == MIXED_1 { hide MixColumns; MixFour(ShiftRows(BOXED_1)); }
  lemma Mixed2() ensures MixColumns(ShiftRows(BOXED_2)) == MIXED_2 { hide MixColumns; MixFour(ShiftRows(BOXED_2)); }
  lemma Mixed3() ensures MixColumns(ShiftRows(BOXED_3)) == MIXED_3 { hide MixColumns; MixFour(ShiftRows(BOXED_3)); }
  lemma Mixed4() ensures MixColumns(ShiftRows(BOXED_4)) == MIXED_4 { hide MixColumns; MixFour(ShiftRows(BOXED_4)); }
  lemma Mixed5() ensures MixColumns(ShiftRows(BOXED_5)) == MIXED_5 { hide MixColumns; MixFour(ShiftRows(BOXED_5)); }
  lemma Mixed6() ensures MixColumns(ShiftRows(BOXED_6)) == MIXED_6 { hide MixColumns; MixFour(ShiftRows(BOXED_6)); }
  lemma Mixed7() ensures MixColumns(ShiftRows(BOXED_7)) == MIXED_7 { hide MixColumns; MixFour(ShiftRows(BOXED_7)); }
  lemma Mixed8() ensures MixColumns(ShiftRows(BOXED_8)) == MIXED_8 { hide MixColumns; MixFour(ShiftRows(BOXED_8)); }
  lemma Mixed9() ensures MixColumns(ShiftRows(BOXED_9)) == MIXED_9 { hide MixColumns; MixFour(ShiftRows(BOXED_9)); }


  ghost predicate HasKey(keys: seq<bv32>, k: nat, key: seq<bv32>) {
    && |key| == 4 && 4 * k + 4 <= |keys|
    && keys[4 * k] == key[0] && keys[4 * k + 1] == key[1] && keys[4 * k + 2] == key[2] && keys[4 * k + 3] == key[3]
  }

  /** Column `c` of `t` is that of `s` with the word added. */
  predicate Keyed(s: Block, k: bv32, t: Block, c: nat)
    requires c < 4
  {
    && Add(s[c], KeyByte(k, 0)) == t[c] && Add(s[4 + c], KeyByte(k, 1)) == t[4 + c]
    && Add(s[8 + c], KeyByte(k, 2)) == t[8 + c] && Add(s[12 + c], KeyByte(k, 3)) == t[12 + c]
  }

  lemma KeyIs(s: Block, keys: seq<bv32>, k: nat, key: seq<bv32>, t: Block)
    requires HasKey(keys, k, key)
    requires Keyed(s, key[0], t, 0) && Keyed(s, key[1], t, 1) && Keyed(s, key[2], t, 2) && Keyed(s, key[3], t, 3)
    ensures AddRoundKey(s, keys, k) == t
  {
    hide Add, KeyByte;
  }

  lemma Keyed1(keys: seq<bv32>)
    requires HasKey(keys, 1, KEY_1)
    ensures AddRoundKey(MIXED_1, keys, 1) == START_2
  {
    KeyIs(MIXED_1, keys, 1, KEY_1, START_2);
  }

  lemma Keyed2(keys: seq<bv32>)
    requires HasKey(keys, 2, KEY_2)
    ensures AddRoundKey(MIXED_2, keys, 2) == START_3
  {
    KeyIs(MIXED_2, keys, 2, KEY_2, START_3);
  }

  lemma Keyed3(keys: seq<bv32>)
    requires HasKey(keys, 3, KEY_3)
    ensures AddRoundKey(MIXED_3, keys, 3) == START_4
  {
    KeyIs(MIXED_3, keys, 3, KEY_3, START_4);
  }

  lemma Keyed4(keys: seq<bv32>)
    requires HasKey(keys, 4, KEY_4)
    ensures AddRoundKey(MIXED_4, keys, 4) == START_5
  {
    KeyIs(MIXED_4, keys, 4, KEY_4, START_5);
  }

  lemma Keyed5(keys: seq<bv32>)
    requires HasKey(keys, 5, KEY_5)
    ensures AddRoundKey(MIXED_5, keys, 5) == START_6
  {
    KeyIs(MIXED_5, keys, 5, KEY_5, START_6);
  }

  lemma Keyed6(keys: seq<bv32>)
    requires HasKey(keys, 6, KEY_6)
    ensures AddRoundKey(MIXED_6, keys, 6) == START_7
  {
    KeyIs(MIXED_6, keys, 6, KEY_6, START_7);
  }

  lemma Keyed7(keys: seq<bv32>)
    requires HasKey(keys, 7, KEY_7)
    ensures AddRoundKey(MIXED_7, keys, 7) == START_8
  {
    KeyIs(MIXED_7, keys, 7, KEY_7, START_8);
  }

  lemma Keyed8(keys: seq<bv32>)
    requires HasKey(keys, 8, KEY_8)
    ensures AddRoundKey(MIXED_8, keys, 8) == START_9
  {
    KeyIs(MIXED_8, keys, 8, KEY_8, START_9);
  }

  lemma Keyed9(keys: seq<bv32>)
    requires HasKey(keys, 9, KEY_9)
    ensures AddRoundKey(MIXED_9, keys, 9) == START_10
  {
    KeyIs(MIXED_9, keys, 9, KEY_9, START_10);
  }

  // ---- The whole example ----

  /** Round key `k` of a schedule from the one before. */
  lemma NextKey(keys: seq<bv32>, k: nat, a: seq<bv32>, b: seq<bv32>)
    requires Expanded(keys, KEY_0, 4) && 1 <= k <= 10 && |b| == 4 && HasKey(keys, k - 1, a) && Follows(a, b, RCON[k])
    ensures HasKey(keys, k, b)
  {
    hide Xor, SubWord, RotWord;
    Word(keys, k, 0);
    Word(keys, k, 1);
    Word(keys, k, 2);
    Word(keys, k, 3);
  }

  lemma Word(keys: seq<bv32>, k: nat, j: nat)
    requires Expanded(keys, KEY_0, 4) && 1 <= k <= 10 && j < 4
    ensures keys[4 * k + j] == Xor(keys[4 * k + j - 4],
              if j == 0 then Xor(SubWord(RotWord(keys[4 * k - 1])), RCON[k]) else keys[4 * k + j - 1])
  {
    hide Xor, SubWord, RotWord;
    assert WordOk(keys, 4 * k + j, 4);
    assert (4 * k + j) % 4 == j && (4 * k + j) / 4 == k;
  }

  /** The key schedule of Appendix A.1. */
  lemma ScheduleIs(keys: seq<bv32>)
    requires Expanded(keys, KEY_0, 4)
    ensures HasKey(keys, 0, KEY_0) && HasKey(keys, 1, KEY_1) && HasKey(keys, 2, KEY_2) && HasKey(keys, 3, KEY_3)
    ensures HasKey(keys, 4, KEY_4) && HasKey(keys, 5, KEY_5) && HasKey(keys, 6, KEY_6) && HasKey(keys, 7, KEY_7)
    ensures HasKey(keys, 8, KEY_8) && HasKey(keys, 9, KEY_9) && HasKey(keys, 10, KEY_10)
  {
    assert HasKey(keys, 0, KEY_0);
    hide Expanded, HasKey, Follows;
    Follows1();
    NextKey(keys, 1, KEY_0, KEY_1);
    Follows2();
    NextKey(keys, 2, KEY_1, KEY_2);
    Follows3();
    NextKey(keys, 3, KEY_2, KEY_3);
    Follows4();
    NextKey(keys, 4, KEY_3, KEY_4);
    Follows5();
    NextKey(keys, 5, KEY_4, KEY_5);
    Follows6();
    NextKey(keys, 6, KEY_5, KEY_6);
    Follows7();
    NextKey(keys, 7, KEY_6, KEY_7);
    Follows8();
    NextKey(keys, 8, KEY_7, KEY_8);
    Follows9();
    NextKey(keys, 9, KEY_8, KEY_9);
    Follows10();
    NextKey(keys, 10, KEY_9, KEY_10);
  }

  /** One round: the state at its start is that at the start of the next one. */
  lemma RoundIs(s: Block, boxed: Block, mixed: Block, keys: seq<bv32>, k: nat, key: seq<bv32>, t: Block, input: Block)
    requires 1 <= k && HasKey(keys, k, key) && Encrypting(input, keys, k - 1) == s && SubBytes(s) == boxed
    requires MixColumns(ShiftRows(boxed)) == mixed && AddRoundKey(mixed, keys, k) == t
    ensures Encrypting(input, keys, k) == t
  {
    hide SubBytes, MixColumns, ShiftRows, AddRoundKey;
  }

  lemma FirstKey(keys: seq<bv32>)
    requires HasKey(keys, 0, KEY_0)
    ensures Encrypting(Transposed(INPUT), keys, 0) == START_1
  {
    var s := Transposed(INPUT);
    KeyIs(s, keys, 0, KEY_0, START_1);
    hide AddRoundKey, Transposed;
  }

  lemma Round1(keys: seq<bv32>)
    requires Expanded(keys, KEY_0, 4)
    ensures Encrypting(Transposed(INPUT), keys, 1) == START_2
  {
    hide Expanded, HasKey, Box4, Encrypting, SubBytes, MixColumns, ShiftRows, AddRoundKey, Transposed;
    ScheduleIs(keys);
    FirstKey(keys);
    Boxed1();
    Mixed1();
    Keyed1(keys);
    RoundIs(START_1, BOXED_1, MIXED_1, keys, 1, KEY_1, START_2, Transposed(INPUT));
  }

  lemma Round2(keys: seq<bv32>)
    requires Expanded(keys, KEY_0, 4)
    ensures Encrypting(Transposed(INPUT), keys, 2) == START_3
  {
    hide Expanded, HasKey, Box4, Encrypting, SubBytes, MixColumns, ShiftRows, AddRoundKey, Transposed;
    ScheduleIs(keys);
    Round1(keys);
    Boxed2();
    Mixed2();
    Keyed2(keys);
    RoundIs(START_2, BOXED_2, MIXED_2, keys, 2, KEY_2, START_3, Transposed(INPUT));
  }

  lemma Round3(keys: seq<bv32>)
    requires Expanded(keys, KEY_0, 4)
    ensures Encrypting(Transposed(INPUT), keys, 3) == START_4
  {
    hide Expanded, HasKey, Box4, Encrypting, SubBytes, MixColumns, ShiftRows, AddRoundKey, Transposed;
    ScheduleIs(keys);
    Round2(keys);
    Boxed3();
    Mixed3();
    Keyed3(keys);
    RoundIs(START_3, BOXED_3, MIXED_3, keys, 3, KEY_3, START_4, Transposed(INPUT));
  }

  lemma Round4(keys: seq<bv32>)
    requires Expanded(keys, KEY_0, 4)
    ensures Encrypting(Transposed(INPUT), keys, 4) == START_5
  {
    hide Expanded, HasKey, Box4, Encrypting, SubBytes, MixColumns, ShiftRows, AddRoundKey, Transposed;
    ScheduleIs(keys);
    Round3(keys);
    Boxed4();
    Mixed4();
    Keyed4(keys);
    RoundIs(START_4, BOXED_4, MIXED_4, keys, 4, KEY_4, START_5, Transposed(INPUT));
  }

  lemma Round5(keys: seq<bv32>)
    requires Expanded(keys, KEY_0, 4)
    ensures Encrypting(Transposed(INPUT), keys, 5) == START_6
  {
    hide Expanded, HasKey, Box4, Encrypting, SubBytes, MixColumns, ShiftRows, AddRoundKey, Transposed;
    ScheduleIs(keys);
    Round4(keys);
    Boxed5();
    Mixed5();
    Keyed5(keys);
    RoundIs(START_5, BOXED_5, MIXED_5, keys, 5, KEY_5, START_6, Transposed(INPUT));
  }

  lemma Round6(keys: seq<bv32>)
    requires Expanded(keys, KEY_0, 4)
    ensures Encrypting(Transposed(INPUT), keys, 6) == START_7
  {
    hide Expanded, HasKey, Box4, Encrypting, SubBytes, MixColumns, ShiftRows, AddRoundKey, Transposed;
    ScheduleIs(keys);
    Round5(keys);
    Boxed6();
    Mixed6();
    Keyed6(keys);
    RoundIs(START_6, BOXED_6, MIXED_6, keys, 6, KEY_6, START_7, Transposed(INPUT));
  }

  lemma Round7(keys: seq<bv32>)
    requires Expanded(keys, KEY_0, 4)
    ensures Encrypting(Transposed(INPUT), keys, 7) == START_8
  {
    hide Expanded, HasKey, Box4, Encrypting, SubBytes, MixColumns, ShiftRows, AddRoundKey, Transposed;
    ScheduleIs(keys);
    Round6(keys);
    Boxed7();
    Mixed7();
    Keyed7(keys);
    RoundIs(START_7, BOXED_7, MIXED_7, keys, 7, KEY_7, START_8, Transposed(INPUT));
  }

  lemma Round8(keys: seq<bv32>)
    requires Expanded(keys, KEY_0, 4)
    ensures Encrypting(Transposed(INPUT), keys, 8) == START_9
  {
    hide Expanded, HasKey, Box4, Encrypting, SubBytes, MixColumns, ShiftRows, AddRoundKey, Transposed;
    ScheduleIs(keys);
    Round7(keys);
    Boxed8();
    Mixed8();
    Keyed8(keys);
    RoundIs(START_8, BOXED_8, MIXED_8, keys, 8, KEY_8, START_9, Transposed(INPUT));
  }

  lemma Round9(keys: seq<bv32>)
    requires Expanded(keys, KEY_0, 4)
    ensures Encrypting(Transposed(INPUT), keys, 9) == START_10
  {
    hide Expanded, HasKey, Box4, Encrypting, SubBytes, MixColumns, ShiftRows, AddRoundKey, Transposed;
    ScheduleIs(keys);
    Round8(keys);
    Boxed9();
    Mixed9();
    Keyed9(keys);
    RoundIs(START_9, BOXED_9, MIXED_9, keys, 9, KEY_9, START_10, Transposed(INPUT));
  }

  lemma LastKey(keys: seq<bv32>)
    requires HasKey(keys, 10, KEY_10)
    ensures AddRoundKey(ShiftRows(BOXED_10), keys, 10) == Transposed(OUTPUT)
  {
    KeyIs(ShiftRows(BOXED_10), keys, 10, KEY_10, Transposed(OUTPUT));
  }

  /** With the round keys keyExpansion makes of the example's key, aes_encrypt turns its input into its
      output. */
  lemma AppendixB(keys: seq<bv32>)
    requires Expanded(keys, KEY_0, 4)
    ensures Encrypt(INPUT, keys, 4) == OUTPUT
  {
    hide Expanded, HasKey, Box4, Encrypting, SubBytes, ShiftRows, AddRoundKey, Transposed;
    assert |keys| >= 44 by { ScheduleLength(keys); }
    ScheduleIs(keys);
    Round9(keys);
    Boxed10();
    LastKey(keys);
    TransposedTwice(OUTPUT);
  }

  lemma ScheduleLength(keys: seq<bv32>)
    requires Expanded(keys, KEY_0, 4)
    ensures |keys| >= 44
  {}
}
