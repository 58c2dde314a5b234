/** The example vectors of FIPS 197, appendices A.1 and C.1, worked out word by word and round by round. */
module AesVector {
  import opened AesCipher
  import opened AesBlock
  import opened Aes
  import opened AesKey

  const KEY: seq<bv8> := [0x00, 0x01, 0x02, 0x03, 0x04, 0x05, 0x06, 0x07, 0x08, 0x09, 0x0a, 0x0b, 0x0c, 0x0d, 0x0e, 0x0f]
  const PLAIN: seq<bv8> := [0x00, 0x11, 0x22, 0x33, 0x44, 0x55, 0x66, 0x77, 0x88, 0x99, 0xaa, 0xbb, 0xcc, 0xdd, 0xee, 0xff]

  // The first word that is computed in the expansion of appendix A.1.
  const KEY_A1: seq<bv8> := [0x2b, 0x7e, 0x15, 0x16, 0x28, 0xae, 0xd2, 0xa6, 0xab, 0xf7, 0x15, 0x88, 0x09, 0xcf, 0x4f, 0x3c]

  lemma WordOfA1()
    ensures Schedule(KEY_A1, 128)[4] == 0xa0fafe17
  {
    hide KeyWord, Pack;
    KeyWordOfA1();
    PackedOfA1();
  }

  lemma PackedOfA1()
    ensures Packed(Col(0xa0, 0xfa, 0xfe, 0x17)) == 0xa0fafe17
  {}

  lemma KeyWordOfA1()
    ensures KeyWord(KEY_A1, 4, 4) == Col(0xa0, 0xfa, 0xfe, 0x17)
  {
    assert KeyWord(KEY_A1, 4, 3) == Col(0x09, 0xcf, 0x4f, 0x3c);
    assert KeyWord(KEY_A1, 4, 0) == Col(0x2b, 0x7e, 0x15, 0x16);
    FirstPowersOfX();
  }

  // Word i of the schedule of appendix C.1, from the words before it.
  lemma NextIs(i: nat, prev: Col, back: Col, temp: Col, v: Col)
    requires 4 <= i && KeyWord(KEY, 4, i - 1) == prev && KeyWord(KEY, 4, i - 4) == back
    requires Temp(prev, 4, i) == temp && Xor(back, temp) == v
    ensures KeyWord(KEY, 4, i) == v
  {
    hide Temp, Xor, KeyWord;
    NextKeyWord(KEY, 4, i);
  }

  // The four words that are added in round r.
  function RoundKey(r: nat): State {
    State(KeyWord(KEY, 4, 4 * r), KeyWord(KEY, 4, 4 * r + 1), KeyWord(KEY, 4, 4 * r + 2), KeyWord(KEY, 4, 4 * r + 3))
  }

  lemma RoundKey0()
    ensures RoundKey(0) == State(Col(0x00, 0x01, 0x02, 0x03), Col(0x04, 0x05, 0x06, 0x07), Col(0x08, 0x09, 0x0a, 0x0b), Col(0x0c, 0x0d, 0x0e, 0x0f))
  {}

  lemma RoundKey1()
    ensures RoundKey(1) == State(Col(0xd6, 0xaa, 0x74, 0xfd), Col(0xd2, 0xaf, 0x72, 0xfa), Col(0xda, 0xa6, 0x78, 0xf1), Col(0xd6, 0xab, 0x76, 0xfe))
  {
    hide KeyWord;
    RoundKey0();
    FirstPowersOfX();
    NextIs(4, Col(0x0c, 0x0d, 0x0e, 0x0f), Col(0x00, 0x01, 0x02, 0x03),
      Col(0xd6, 0xab, 0x76, 0xfe), Col(0xd6, 0xaa, 0x74, 0xfd));
    NextIs(5, Col(0xd6, 0xaa, 0x74, 0xfd), Col(0x04, 0x05, 0x06, 0x07),
      Col(0xd6, 0xaa, 0x74, 0xfd), Col(0xd2, 0xaf, 0x72, 0xfa));
    NextIs(6, Col(0xd2, 0xaf, 0x72, 0xfa), Col(0x08, 0x09, 0x0a, 0x0b),
      Col(0xd2, 0xaf, 0x72, 0xfa), Col(0xda, 0xa6, 0x78, 0xf1));
    NextIs(7, Col(0xda, 0xa6, 0x78, 0xf1), Col(0x0c, 0x0d, 0x0e, 0x0f),
      Col(0xda, 0xa6, 0x78, 0xf1), Col(0xd6, 0xab, 0x76, 0xfe));
  }

  lemma RoundKey2()
    ensures RoundKey(2) == State(Col(0xb6, 0x92, 0xcf, 0x0b), Col(0x64, 0x3d, 0xbd, 0xf1), Col(0xbe, 0x9b, 0xc5, 0x00), Col(0x68, 0x30, 0xb3, 0xfe))
  {
    hide KeyWord;
    RoundKey1();
    FirstPowersOfX();
    NextIs(8, Col(0xd6, 0xab, 0x76, 0xfe), Col(0xd6, 0xaa, 0x74, 0xfd),
      Col(0x60, 0x38, 0xbb, 0xf6), Col(0xb6, 0x92, 0xcf, 0x0b));
    NextIs(9, Col(0xb6, 0x92, 0xcf, 0x0b), Col(0xd2, 0xaf, 0x72, 0xfa),
      Col(0xb6, 0x92, 0xcf, 0x0b), Col(0x64, 0x3d, 0xbd, 0xf1));
    NextIs(10, Col(0x64, 0x3d, 0xbd, 0xf1), Col(0xda, 0xa6, 0x78, 0xf1),
      Col(0x64, 0x3d, 0xbd, 0xf1), Col(0xbe, 0x9b, 0xc5, 0x00));
    NextIs(11, Col(0xbe, 0x9b, 0xc5, 0x00), Col(0xd6, 0xab, 0x76, 0xfe),
      Col(0xbe, 0x9b, 0xc5, 0x00), Col(0x68, 0x30, 0xb3, 0xfe));
  }

  lemma RoundKey3()
    ensures RoundKey(3) == State(Col(0xb6, 0xff, 0x74, 0x4e), Col(0xd2, 0xc2, 0xc9, 0xbf), Col(0x6c, 0x59, 0x0c, 0xbf), Col(0x04, 0x69, 0xbf, 0x41))
  {
    hide KeyWord;
    RoundKey2();
    FirstPowersOfX();
    NextIs(12, Col(0x68, 0x30, 0xb3, 0xfe), Col(0xb6, 0x92, 0xcf, 0x0b),
      Col(0x00, 0x6d, 0xbb, 0x45), Col(0xb6, 0xff, 0x74, 0x4e));
    NextIs(13, Col(0xb6, 0xff, 0x74, 0x4e), Col(0x64, 0x3d, 0xbd, 0xf1),
      Col(0xb6, 0xff, 0x74, 0x4e), Col(0xd2, 0xc2, 0xc9, 0xbf));
    NextIs(14, Col(0xd2, 0xc2, 0xc9, 0xbf), Col(0xbe, 0x9b, 0xc5, 0x00),
      Col(0xd2, 0xc2, 0xc9, 0xbf), Col(0x6c, 0x59, 0x0c, 0xbf));
    NextIs(15, Col(0x6c, 0x59, 0x0c, 0xbf), Col(0x68, 0x30, 0xb3, 0xfe),
      Col(0x6c, 0x59, 0x0c, 0xbf), Col(0x04, 0x69, 0xbf, 0x41));
  }

  lemma RoundKey4()
    ensures RoundKey(4) == State(Col(0x47, 0xf7, 0xf7, 0xbc), Col(0x95, 0x35, 0x3e, 0x03), Col(0xf9, 0x6c, 0x32, 0xbc), Col(0xfd, 0x05, 0x8d, 0xfd))
  {
    hide KeyWord;
    RoundKey3();
    FirstPowersOfX();
    NextIs(16, Col(0x04, 0x69, 0xbf, 0x41), Col(0xb6, 0xff, 0x74, 0x4e),
      Col(0xf1, 0x08, 0x83, 0xf2), Col(0x47, 0xf7, 0xf7, 0xbc));
    NextIs(17, Col(0x47, 0xf7, 0xf7, 0xbc), Col(0xd2, 0xc2, 0xc9, 0xbf),
      Col(0x47, 0xf7, 0xf7, 0xbc), Col(0x95, 0x35, 0x3e, 0x03));
    NextIs(18, Col(0x95, 0x35, 0x3e, 0x03), Col(0x6c, 0x59, 0x0c, 0xbf),
      Col(0x95, 0x35, 0x3e, 0x03), Col(0xf9, 0x6c, 0x32, 0xbc));
    NextIs(19, Col(0xf9, 0x6c, 0x32, 0xbc), Col(0x04, 0x69, 0xbf, 0x41),
      Col(0xf9, 0x6c, 0x32, 0xbc), Col(0xfd, 0x05, 0x8d, 0xfd));
  }

  lemma RoundKey5()
    ensures RoundKey(5) == State(Col(0x3c, 0xaa, 0xa3, 0xe8), Col(0xa9, 0x9f, 0x9d, 0xeb), Col(0x50, 0xf3, 0xaf, 0x57), Col(0xad, 0xf6, 0x22, 0xaa))
  {
    hide KeyWord;
    RoundKey4();
    FirstPowersOfX();
    NextIs(20, Col(0xfd, 0x05, 0x8d, 0xfd), Col(0x47, 0xf7, 0xf7, 0xbc),
      Col(0x7b, 0x5d, 0x54, 0x54), Col(0x3c, 0xaa, 0xa3, 0xe8));
    NextIs(21, Col(0x3c, 0xaa, 0xa3, 0xe8), Col(0x95, 0x35, 0x3e, 0x03),
      Col(0x3c, 0xaa, 0xa3, 0xe8), Col(0xa9, 0x9f, 0x9d, 0xeb));
    NextIs(22, Col(0xa9, 0x9f, 0x9d, 0xeb), Col(0xf9, 0x6c, 0x32, 0xbc),
      Col(0xa9, 0x9f, 0x9d, 0xeb), Col(0x50, 0xf3, 0xaf, 0x57));
    NextIs(23, Col(0x50, 0xf3, 0xaf, 0x57), Col(0xfd, 0x05, 0x8d, 0xfd),
      Col(0x50, 0xf3, 0xaf, 0x57), Col(0xad, 0xf6, 0x22, 0xaa));
  }

  lemma RoundKey6()
    ensures RoundKey(6) == State(Col(0x5e, 0x39, 0x0f, 0x7d), Col(0xf7, 0xa6, 0x92, 0x96), Col(0xa7, 0x55, 0x3d, 0xc1), Col(0x0a, 0xa3, 0x1f, 0x6b))
  {
    hide KeyWord;
    RoundKey5();
    FirstPowersOfX();
    NextIs(24, Col(0xad, 0xf6, 0x22, 0xaa), Col(0x3c, 0xaa, 0xa3, 0xe8),
      Col(0x62, 0x93, 0xac, 0x95), Col(0x5e, 0x39, 0x0f, 0x7d));
    NextIs(25, Col(0x5e, 0x39, 0x0f, 0x7d), Col(0xa9, 0x9f, 0x9d, 0xeb),
      Col(0x5e, 0x39, 0x0f, 0x7d), Col(0xf7, 0xa6, 0x92, 0x96));
    NextIs(26, Col(0xf7, 0xa6, 0x92, 0x96), Col(0x50, 0xf3, 0xaf, 0x57),
      Col(0xf7, 0xa6, 0x92, 0x96), Col(0xa7, 0x55, 0x3d, 0xc1));
    NextIs(27, Col(0xa7, 0x55, 0x3d, 0xc1), Col(0xad, 0xf6, 0x22, 0xaa),
      Col(0xa7, 0x55, 0x3d, 0xc1), Col(0x0a, 0xa3, 0x1f, 0x6b));
  }

  lemma RoundKey7()
    ensures RoundKey(7) == State(Col(0x14, 0xf9, 0x70, 0x1a), Col(0xe3, 0x5f, 0xe2, 0x8c), Col(0x44, 0x0a, 0xdf, 0x4d), Col(0x4e, 0xa9, 0xc0, 0x26))
  {
    hide KeyWord;
    RoundKey6();
    FirstPowersOfX();
    NextIs(28, Col(0x0a, 0xa3, 0x1f, 0x6b), Col(0x5e, 0x39, 0x0f, 0x7d),
      Col(0x4a, 0xc0, 0x7f, 0x67), Col(0x14, 0xf9, 0x70, 0x1a));
    NextIs(29, Col(0x14, 0xf9, 0x70, 0x1a), Col(0xf7, 0xa6, 0x92, 0x96),
      Col(0x14, 0xf9, 0x70, 0x1a), Col(0xe3, 0x5f, 0xe2, 0x8c));
    NextIs(30, Col(0xe3, 0x5f, 0xe2, 0x8c), Col(0xa7, 0x55, 0x3d, 0xc1),
      Col(0xe3, 0x5f, 0xe2, 0x8c), Col(0x44, 0x0a, 0xdf, 0x4d));
    NextIs(31, Col(0x44, 0x0a, 0xdf, 0x4d), Col(0x0a, 0xa3, 0x1f, 0x6b),
      Col(0x44, 0x0a, 0xdf, 0x4d), Col(0x4e, 0xa9, 0xc0, 0x26));
  }

  lemma RoundKey8()
    ensures RoundKey(8) == State(Col(0x47, 0x43, 0x87, 0x35), Col(0xa4, 0x1c, 0x65, 0xb9), Col(0xe0, 0x16, 0xba, 0xf4), Col(0xae, 0xbf, 0x7a, 0xd2))
  {
    hide KeyWord;
    RoundKey7();
    FirstPowersOfX();
    NextIs(32, Col(0x4e, 0xa9, 0xc0, 0x26), Col(0x14, 0xf9, 0x70, 0x1a),
      Col(0x53, 0xba, 0xf7, 0x2f), Col(0x47, 0x43, 0x87, 0x35));
    NextIs(33, Col(0x47, 0x43, 0x87, 0x35), Col(0xe3, 0x5f, 0xe2, 0x8c),
      Col(0x47, 0x43, 0x87, 0x35), Col(0xa4, 0x1c, 0x65, 0xb9));
    NextIs(34, Col(0xa4, 0x1c, 0x65, 0xb9), Col(0x44, 0x0a, 0xdf, 0x4d),
      Col(0xa4, 0x1c, 0x65, 0xb9), Col(0xe0, 0x16, 0xba, 0xf4));
    NextIs(35, Col(0xe0, 0x16, 0xba, 0xf4), Col(0x4e, 0xa9, 0xc0, 0x26),
      Col(0xe0, 0x16, 0xba, 0xf4), Col(0xae, 0xbf, 0x7a, 0xd2));
  }

  lemma RoundKey9()
    ensures RoundKey(9) == State(Col(0x54, 0x99, 0x32, 0xd1), Col(0xf0, 0x85, 0x57, 0x68), Col(0x10, 0x93, 0xed, 0x9c), Col(0xbe, 0x2c, 0x97, 0x4e))
  {
    hide KeyWord;
    RoundKey8();
    LaterPowersOfX();
    NextIs(36, Col(0xae, 0xbf, 0x7a, 0xd2), Col(0x47, 0x43, 0x87, 0x35),
      Col(0x13, 0xda, 0xb5, 0xe4), Col(0x54, 0x99, 0x32, 0xd1));
    NextIs(37, Col(0x54, 0x99, 0x32, 0xd1), Col(0xa4, 0x1c, 0x65, 0xb9),
      Col(0x54, 0x99, 0x32, 0xd1), Col(0xf0, 0x85, 0x57, 0x68));
    NextIs(38, Col(0xf0, 0x85, 0x57, 0x68), Col(0xe0, 0x16, 0xba, 0xf4),
      Col(0xf0, 0x85, 0x57, 0x68), Col(0x10, 0x93, 0xed, 0x9c));
    NextIs(39, Col(0x10, 0x93, 0xed, 0x9c), Col(0xae, 0xbf, 0x7a, 0xd2),
      Col(0x10, 0x93, 0xed, 0x9c), Col(0xbe, 0x2c, 0x97, 0x4e));
  }

  lemma RoundKey10()
    ensures RoundKey(10) == State(Col(0x13, 0x11, 0x1d, 0x7f), Col(0xe3, 0x94, 0x4a, 0x17), Col(0xf3, 0x07, 0xa7, 0x8b), Col(0x4d, 0x2b, 0x30, 0xc5))
  {
    hide KeyWord;
    RoundKey9();
    LaterPowersOfX();
    NextIs(40, Col(0xbe, 0x2c, 0x97, 0x4e), Col(0x54, 0x99, 0x32, 0xd1),
      Col(0x47, 0x88, 0x2f, 0xae), Col(0x13, 0x11, 0x1d, 0x7f));
    NextIs(41, Col(0x13, 0x11, 0x1d, 0x7f), Col(0xf0, 0x85, 0x57, 0x68),
      Col(0x13, 0x11, 0x1d, 0x7f), Col(0xe3, 0x94, 0x4a, 0x17));
    NextIs(42, Col(0xe3, 0x94, 0x4a, 0x17), Col(0x10, 0x93, 0xed, 0x9c),
      Col(0xe3, 0x94, 0x4a, 0x17), Col(0xf3, 0x07, 0xa7, 0x8b));
    NextIs(43, Col(0xf3, 0x07, 0xa7, 0x8b), Col(0xbe, 0x2c, 0x97, 0x4e),
      Col(0xf3, 0x07, 0xa7, 0x8b), Col(0x4d, 0x2b, 0x30, 0xc5));
  }

  function Plus(s: State, k: State): State { State(Xor(s.c0, k.c0), Xor(s.c1, k.c1), Xor(s.c2, k.c2), Xor(s.c3, k.c3)) }

  function Words(): (w: seq<bv32>)
    ensures |w| == 44
  {
    Schedule(KEY, 128)
  }

  lemma WordBytes(i: nat)
    requires i < 44
    ensures Bytes(Words()[i]) == KeyWord(KEY, 4, i)
  {
    hide KeyWord, Bytes, Pack;
    var c := KeyWord(KEY, 4, i);
    BytesOfPack(c.a, c.b, c.c, c.d);
  }

  lemma AddsRoundKey(s: State, r: nat)
    requires r < 11
    ensures AddKey(s, Words(), r) == Plus(s, RoundKey(r))
  {
    hide KeyWord, Bytes, Words;
    WordBytes(4 * r);
    WordBytes(4 * r + 1);
    WordBytes(4 * r + 2);
    WordBytes(4 * r + 3);
  }

  // The state after r rounds.
  function Reached(r: nat): State
    requires r < 10
  {
    Rounds(Load(PLAIN), Words(), r)
  }

  // Round r as the appendix lists it: its start, and the states after each of the four steps.
  lemma OneRound(r: nat, start: State, box: State, row: State, col: State, key: State, next: State)
    requires 0 < r < 10 && Reached(r - 1) == start && Sub(start) == box && Shift(box) == row && Mix(row) == col
    requires RoundKey(r) == key && Plus(col, key) == next
    ensures Reached(r) == next
  {
    hide Sub, Shift, Mix, RoundKey, Plus, AddKey, Words;
    AddsRoundKey(col, r);
  }

  lemma Round0()
    ensures Reached(0) == State(Col(0x00, 0x10, 0x20, 0x30), Col(0x40, 0x50, 0x60, 0x70), Col(0x80, 0x90, 0xa0, 0xb0), Col(0xc0, 0xd0, 0xe0, 0xf0))
  {
    hide Words, RoundKey, AddKey, Load;
    RoundKey0();
    PlainLoaded();
    AddsRoundKey(Load(PLAIN), 0);
  }

  lemma PlainLoaded()
    ensures Load(PLAIN) == State(Col(0x00, 0x11, 0x22, 0x33), Col(0x44, 0x55, 0x66, 0x77),
                                 Col(0x88, 0x99, 0xaa, 0xbb), Col(0xcc, 0xdd, 0xee, 0xff))
  {}

  lemma Box1a()
    ensures SubCol(Col(0x00, 0x10, 0x20, 0x30)) == Col(0x63, 0xca, 0xb7, 0x04)
    ensures SubCol(Col(0x40, 0x50, 0x60, 0x70)) == Col(0x09, 0x53, 0xd0, 0x51)
  {}

  lemma Box1b()
    ensures SubCol(Col(0x80, 0x90, 0xa0, 0xb0)) == Col(0xcd, 0x60, 0xe0, 0xe7)
    ensures SubCol(Col(0xc0, 0xd0, 0xe0, 0xf0)) == Col(0xba, 0x70, 0xe1, 0x8c)
  {}

  lemma Round1()
    ensures Reached(1) == State(Col(0x89, 0xd8, 0x10, 0xe8), Col(0x85, 0x5a, 0xce, 0x68), Col(0x2d, 0x18, 0x43, 0xd8), Col(0xcb, 0x12, 0x8f, 0xe4))
  {
    hide Reached, RoundKey, SubCol;
    Box1a();
    Box1b();
    Round0();
    RoundKey1();
    OneRound(1, State(Col(0x00, 0x10, 0x20, 0x30), Col(0x40, 0x50, 0x60, 0x70), Col(0x80, 0x90, 0xa0, 0xb0), Col(0xc0, 0xd0, 0xe0, 0xf0)),
      State(Col(0x63, 0xca, 0xb7, 0x04), Col(0x09, 0x53, 0xd0, 0x51), Col(0xcd, 0x60, 0xe0, 0xe7), Col(0xba, 0x70, 0xe1, 0x8c)),
      State(Col(0x63, 0x53, 0xe0, 0x8c), Col(0x09, 0x60, 0xe1, 0x04), Col(0xcd, 0x70, 0xb7, 0x51), Col(0xba, 0xca, 0xd0, 0xe7)),
      State(Col(0x5f, 0x72, 0x64, 0x15), Col(0x57, 0xf5, 0xbc, 0x92), Col(0xf7, 0xbe, 0x3b, 0x29), Col(0x1d, 0xb9, 0xf9, 0x1a)),
      State(Col(0xd6, 0xaa, 0x74, 0xfd), Col(0xd2, 0xaf, 0x72, 0xfa), Col(0xda, 0xa6, 0x78, 0xf1), Col(0xd6, 0xab, 0x76, 0xfe)),
      State(Col(0x89, 0xd8, 0x10, 0xe8), Col(0x85, 0x5a, 0xce, 0x68), Col(0x2d, 0x18, 0x43, 0xd8), Col(0xcb, 0x12, 0x8f, 0xe4)));
  }

  lemma Box2a()
    ensures SubCol(Col(0x89, 0xd8, 0x10, 0xe8)) == Col(0xa7, 0x61, 0xca, 0x9b)
    ensures SubCol(Col(0x85, 0x5a, 0xce, 0x68)) == Col(0x97, 0xbe, 0x8b, 0x45)
  {}

  lemma Box2b()
    ensures SubCol(Col(0x2d, 0x18, 0x43, 0xd8)) == Col(0xd8, 0xad, 0x1a, 0x61)
    ensures SubCol(Col(0xcb, 0x12, 0x8f, 0xe4)) == Col(0x1f, 0xc9, 0x73, 0x69)
  {}

  lemma Round2()
    ensures Reached(2) == State(Col(0x49, 0x15, 0x59, 0x8f), Col(0x55, 0xe5, 0xd7, 0xa0), Col(0xda, 0xca, 0x94, 0xfa), Col(0x1f, 0x0a, 0x63, 0xf7))
  {
    hide Reached, RoundKey, SubCol;
    Box2a();
    Box2b();
    Round1();
    RoundKey2();
    OneRound(2, State(Col(0x89, 0xd8, 0x10, 0xe8), Col(0x85, 0x5a, 0xce, 0x68), Col(0x2d, 0x18, 0x43, 0xd8), Col(0xcb, 0x12, 0x8f, 0xe4)),
      State(Col(0xa7, 0x61, 0xca, 0x9b), Col(0x97, 0xbe, 0x8b, 0x45), Col(0xd8, 0xad, 0x1a, 0x61), Col(0x1f, 0xc9, 0x73, 0x69)),
      State(Col(0xa7, 0xbe, 0x1a, 0x69), Col(0x97, 0xad, 0x73, 0x9b), Col(0xd8, 0xc9, 0xca, 0x45), Col(0x1f, 0x61, 0x8b, 0x61)),
      State(Col(0xff, 0x87, 0x96, 0x84), Col(0x31, 0xd8, 0x6a, 0x51), Col(0x64, 0x51, 0x51, 0xfa), Col(0x77, 0x3a, 0xd0, 0x09)),
      State(Col(0xb6, 0x92, 0xcf, 0x0b), Col(0x64, 0x3d, 0xbd, 0xf1), Col(0xbe, 0x9b, 0xc5, 0x00), Col(0x68, 0x30, 0xb3, 0xfe)),
      State(Col(0x49, 0x15, 0x59, 0x8f), Col(0x55, 0xe5, 0xd7, 0xa0), Col(0xda, 0xca, 0x94, 0xfa), Col(0x1f, 0x0a, 0x63, 0xf7)));
  }

  lemma Box3a()
    ensures SubCol(Col(0x49, 0x15, 0x59, 0x8f)) == Col(0x3b, 0x59, 0xcb, 0x73)
    ensures SubCol(Col(0x55, 0xe5, 0xd7, 0xa0)) == Col(0xfc, 0xd9, 0x0e, 0xe0)
  {}

  lemma Box3b()
    ensures SubCol(Col(0xda, 0xca, 0x94, 0xfa)) == Col(0x57, 0x74, 0x22, 0x2d)
    ensures SubCol(Col(0x1f, 0x0a, 0x63, 0xf7)) == Col(0xc0, 0x67, 0xfb, 0x68)
  {}

  lemma Round3()
    ensures Reached(3) == State(Col(0xfa, 0x63, 0x6a, 0x28), Col(0x25, 0xb3, 0x39, 0xc9), Col(0x40, 0x66, 0x8a, 0x31), Col(0x57, 0x24, 0x4d, 0x17))
  {
    hide Reached, RoundKey, SubCol;
    Box3a();
    Box3b();
    Round2();
    RoundKey3();
    OneRound(3, State(Col(0x49, 0x15, 0x59, 0x8f), Col(0x55, 0xe5, 0xd7, 0xa0), Col(0xda, 0xca, 0x94, 0xfa), Col(0x1f, 0x0a, 0x63, 0xf7)),
      State(Col(0x3b, 0x59, 0xcb, 0x73), Col(0xfc, 0xd9, 0x0e, 0xe0), Col(0x57, 0x74, 0x22, 0x2d), Col(0xc0, 0x67, 0xfb, 0x68)),
      State(Col(0x3b, 0xd9, 0x22, 0x68), Col(0xfc, 0x74, 0xfb, 0x73), Col(0x57, 0x67, 0xcb, 0xe0), Col(0xc0, 0x59, 0x0e, 0x2d)),
      State(Col(0x4c, 0x9c, 0x1e, 0x66), Col(0xf7, 0x71, 0xf0, 0x76), Col(0x2c, 0x3f, 0x86, 0x8e), Col(0x53, 0x4d, 0xf2, 0x56)),
      State(Col(0xb6, 0xff, 0x74, 0x4e), Col(0xd2, 0xc2, 0xc9, 0xbf), Col(0x6c, 0x59, 0x0c, 0xbf), Col(0x04, 0x69, 0xbf, 0x41)),
      State(Col(0xfa, 0x63, 0x6a, 0x28), Col(0x25, 0xb3, 0x39, 0xc9), Col(0x40, 0x66, 0x8a, 0x31), Col(0x57, 0x24, 0x4d, 0x17)));
  }

  lemma Box4a()
    ensures SubCol(Col(0xfa, 0x63, 0x6a, 0x28)) == Col(0x2d, 0xfb, 0x02, 0x34)
    ensures SubCol(Col(0x25, 0xb3, 0x39, 0xc9)) == Col(0x3f, 0x6d, 0x12, 0xdd)
  {}

  lemma Box4b()
    ensures SubCol(Col(0x40, 0x66, 0x8a, 0x31)) == Col(0x09, 0x33, 0x7e, 0xc7)
    ensures SubCol(Col(0x57, 0x24, 0x4d, 0x17)) == Col(0x5b, 0x36, 0xe3, 0xf0)
  {}

  lemma Round4()
    ensures Reached(4) == State(Col(0x24, 0x72, 0x40, 0x23), Col(0x69, 0x66, 0xb3, 0xfa), Col(0x6e, 0xd2, 0x75, 0x32), Col(0x88, 0x42, 0x5b, 0x6c))
  {
    hide Reached, RoundKey, SubCol;
    Box4a();
    Box4b();
    Round3();
    RoundKey4();
    OneRound(4, State(Col(0xfa, 0x63, 0x6a, 0x28), Col(0x25, 0xb3, 0x39, 0xc9), Col(0x40, 0x66, 0x8a, 0x31), Col(0x57, 0x24, 0x4d, 0x17)),
      State(Col(0x2d, 0xfb, 0x02, 0x34), Col(0x3f, 0x6d, 0x12, 0xdd), Col(0x09, 0x33, 0x7e, 0xc7), Col(0x5b, 0x36, 0xe3, 0xf0)),
      State(Col(0x2d, 0x6d, 0x7e, 0xf0), Col(0x3f, 0x33, 0xe3, 0x34), Col(0x09, 0x36, 0x02, 0xdd), Col(0x5b, 0xfb, 0x12, 0xc7)),
      State(Col(0x63, 0x85, 0xb7, 0x9f), Col(0xfc, 0x53, 0x8d, 0xf9), Col(0x97, 0xbe, 0x47, 0x8e), Col(0x75, 0x47, 0xd6, 0x91)),
      State(Col(0x47, 0xf7, 0xf7, 0xbc), Col(0x95, 0x35, 0x3e, 0x03), Col(0xf9, 0x6c, 0x32, 0xbc), Col(0xfd, 0x05, 0x8d, 0xfd)),
      State(Col(0x24, 0x72, 0x40, 0x23), Col(0x69, 0x66, 0xb3, 0xfa), Col(0x6e, 0xd2, 0x75, 0x32), Col(0x88, 0x42, 0x5b, 0x6c)));
  }

  lemma Box5a()
    ensures SubCol(Col(0x24, 0x72, 0x40, 0x23)) == Col(0x36, 0x40, 0x09, 0x26)
    ensures SubCol(Col(0x69, 0x66, 0xb3, 0xfa)) == Col(0xf9, 0x33, 0x6d, 0x2d)
  {}

  lemma Box5b()
    ensures SubCol(Col(0x6e, 0xd2, 0x75, 0x32)) == Col(0x9f, 0xb5, 0x9d, 0x23)
    ensures SubCol(Col(0x88, 0x42, 0x5b, 0x6c)) == Col(0xc4, 0x2c, 0x39, 0x50)
  {}

  lemma Round5()
    ensures Reached(5) == State(Col(0xc8, 0x16, 0x77, 0xbc), Col(0x9b, 0x7a, 0xc9, 0x3b), Col(0x25, 0x02, 0x79, 0x92), Col(0xb0, 0x26, 0x19, 0x96))
  {
    hide Reached, RoundKey, SubCol;
    Box5a();
    Box5b();
    Round4();
    RoundKey5();
    OneRound(5, State(Col(0x24, 0x72, 0x40, 0x23), Col(0x69, 0x66, 0xb3, 0xfa), Col(0x6e, 0xd2, 0x75, 0x32), Col(0x88, 0x42, 0x5b, 0x6c)),
      State(Col(0x36, 0x40, 0x09, 0x26), Col(0xf9, 0x33, 0x6d, 0x2d), Col(0x9f, 0xb5, 0x9d, 0x23), Col(0xc4, 0x2c, 0x39, 0x50)),
      State(Col(0x36, 0x33, 0x9d, 0x50), Col(0xf9, 0xb5, 0x39, 0x26), Col(0x9f, 0x2c, 0x09, 0x2d), Col(0xc4, 0x40, 0x6d, 0x23)),
      State(Col(0xf4, 0xbc, 0xd4, 0x54), Col(0x32, 0xe5, 0x54, 0xd0), Col(0x75, 0xf1, 0xd6, 0xc5), Col(0x1d, 0xd0, 0x3b, 0x3c)),
      State(Col(0x3c, 0xaa, 0xa3, 0xe8), Col(0xa9, 0x9f, 0x9d, 0xeb), Col(0x50, 0xf3, 0xaf, 0x57), Col(0xad, 0xf6, 0x22, 0xaa)),
      State(Col(0xc8, 0x16, 0x77, 0xbc), Col(0x9b, 0x7a, 0xc9, 0x3b), Col(0x25, 0x02, 0x79, 0x92), Col(0xb0, 0x26, 0x19, 0x96)));
  }

  lemma Box6a()
    ensures SubCol(Col(0xc8, 0x16, 0x77, 0xbc)) == Col(0xe8, 0x47, 0xf5, 0x65)
    ensures SubCol(Col(0x9b, 0x7a, 0xc9, 0x3b)) == Col(0x14, 0xda, 0xdd, 0xe2)
  {}

  lemma Box6b()
    ensures SubCol(Col(0x25, 0x02, 0x79, 0x92)) == Col(0x3f, 0x77, 0xb6, 0x4f)
    ensures SubCol(Col(0xb0, 0x26, 0x19, 0x96)) == Col(0xe7, 0xf7, 0xd4, 0x90)
  {}

  lemma Round6()
    ensures Reached(6) == State(Col(0xc6, 0x2f, 0xe1, 0x09), Col(0xf7, 0x5e, 0xed, 0xc3), Col(0xcc, 0x79, 0x39, 0x5d), Col(0x84, 0xf9, 0xcf, 0x5d))
  {
    hide Reached, RoundKey, SubCol;
    Box6a();
    Box6b();
    Round5();
    RoundKey6();
    OneRound(6, State(Col(0xc8, 0x16, 0x77, 0xbc), Col(0x9b, 0x7a, 0xc9, 0x3b), Col(0x25, 0x02, 0x79, 0x92), Col(0xb0, 0x26, 0x19, 0x96)),
      State(Col(0xe8, 0x47, 0xf5, 0x65), Col(0x14, 0xda, 0xdd, 0xe2), Col(0x3f, 0x77, 0xb6, 0x4f), Col(0xe7, 0xf7, 0xd4, 0x90)),
      State(Col(0xe8, 0xda, 0xb6, 0x90), Col(0x14, 0x77, 0xd4, 0x65), Col(0x3f, 0xf7, 0xf5, 0xe2), Col(0xe7, 0x47, 0xdd, 0x4f)),
      State(Col(0x98, 0x16, 0xee, 0x74), Col(0x00, 0xf8, 0x7f, 0x55), Col(0x6b, 0x2c, 0x04, 0x9c), Col(0x8e, 0x5a, 0xd0, 0x36)),
      State(Col(0x5e, 0x39, 0x0f, 0x7d), Col(0xf7, 0xa6, 0x92, 0x96), Col(0xa7, 0x55, 0x3d, 0xc1), Col(0x0a, 0xa3, 0x1f, 0x6b)),
      State(Col(0xc6, 0x2f, 0xe1, 0x09), Col(0xf7, 0x5e, 0xed, 0xc3), Col(0xcc, 0x79, 0x39, 0x5d), Col(0x84, 0xf9, 0xcf, 0x5d)));
  }

  lemma Box7a()
    ensures SubCol(Col(0xc6, 0x2f, 0xe1, 0x09)) == Col(0xb4, 0x15, 0xf8, 0x01)
    ensures SubCol(Col(0xf7, 0x5e, 0xed, 0xc3)) == Col(0x68, 0x58, 0x55, 0x2e)
  {}

  lemma Box7b()
    ensures SubCol(Col(0xcc, 0x79, 0x39, 0x5d)) == Col(0x4b, 0xb6, 0x12, 0x4c)
    ensures SubCol(Col(0x84, 0xf9, 0xcf, 0x5d)) == Col(0x5f, 0x99, 0x8a, 0x4c)
  {}

  lemma Round7()
    ensures Reached(7) == State(Col(0xd1, 0x87, 0x6c, 0x0f), Col(0x79, 0xc4, 0x30, 0x0a), Col(0xb4, 0x55, 0x94, 0xad), Col(0xd6, 0x6f, 0xf4, 0x1f))
  {
    hide Reached, RoundKey, SubCol;
    Box7a();
    Box7b();
    Round6();
    RoundKey7();
    OneRound(7, State(Col(0xc6, 0x2f, 0xe1, 0x09), Col(0xf7, 0x5e, 0xed, 0xc3), Col(0xcc, 0x79, 0x39, 0x5d), Col(0x84, 0xf9, 0xcf, 0x5d)),
      State(Col(0xb4, 0x15, 0xf8, 0x01), Col(0x68, 0x58, 0x55, 0x2e), Col(0x4b, 0xb6, 0x12, 0x4c), Col(0x5f, 0x99, 0x8a, 0x4c)),
      State(Col(0xb4, 0x58, 0x12, 0x4c), Col(0x68, 0xb6, 0x8a, 0x01), Col(0x4b, 0x99, 0xf8, 0x2e), Col(0x5f, 0x15, 0x55, 0x4c)),
      State(Col(0xc5, 0x7e, 0x1c, 0x15), Col(0x9a, 0x9b, 0xd2, 0x86), Col(0xf0, 0x5f, 0x4b, 0xe0), Col(0x98, 0xc6, 0x34, 0x39)),
      State(Col(0x14, 0xf9, 0x70, 0x1a), Col(0xe3, 0x5f, 0xe2, 0x8c), Col(0x44, 0x0a, 0xdf, 0x4d), Col(0x4e, 0xa9, 0xc0, 0x26)),
      State(Col(0xd1, 0x87, 0x6c, 0x0f), Col(0x79, 0xc4, 0x30, 0x0a), Col(0xb4, 0x55, 0x94, 0xad), Col(0xd6, 0x6f, 0xf4, 0x1f)));
  }

  lemma Box8a()
    ensures SubCol(Col(0xd1, 0x87, 0x6c, 0x0f)) == Col(0x3e, 0x17, 0x50, 0x76)
    ensures SubCol(Col(0x79, 0xc4, 0x30, 0x0a)) == Col(0xb6, 0x1c, 0x04, 0x67)
  {}

  lemma Box8b()
    ensures SubCol(Col(0xb4, 0x55, 0x94, 0xad)) == Col(0x8d, 0xfc, 0x22, 0x95)
    ensures SubCol(Col(0xd6, 0x6f, 0xf4, 0x1f)) == Col(0xf6, 0xa8, 0xbf, 0xc0)
  {}

  lemma Round8()
    ensures Reached(8) == State(Col(0xfd, 0xe3, 0xba, 0xd2), Col(0x05, 0xe5, 0xd0, 0xd7), Col(0x35, 0x47, 0x96, 0x4e), Col(0xf1, 0xfe, 0x37, 0xf1))
  {
    hide Reached, RoundKey, SubCol;
    Box8a();
    Box8b();
    Round7();
    RoundKey8();
    OneRound(8, State(Col(0xd1, 0x87, 0x6c, 0x0f), Col(0x79, 0xc4, 0x30, 0x0a), Col(0xb4, 0x55, 0x94, 0xad), Col(0xd6, 0x6f, 0xf4, 0x1f)),
      State(Col(0x3e, 0x17, 0x50, 0x76), Col(0xb6, 0x1c, 0x04, 0x67), Col(0x8d, 0xfc, 0x22, 0x95), Col(0xf6, 0xa8, 0xbf, 0xc0)),
      State(Col(0x3e, 0x1c, 0x22, 0xc0), Col(0xb6, 0xfc, 0xbf, 0x76), Col(0x8d, 0xa8, 0x50, 0x67), Col(0xf6, 0x17, 0x04, 0x95)),
      State(Col(0xba, 0xa0, 0x3d, 0xe7), Col(0xa1, 0xf9, 0xb5, 0x6e), Col(0xd5, 0x51, 0x2c, 0xba), Col(0x5f, 0x41, 0x4d, 0x23)),
      State(Col(0x47, 0x43, 0x87, 0x35), Col(0xa4, 0x1c, 0x65, 0xb9), Col(0xe0, 0x16, 0xba, 0xf4), Col(0xae, 0xbf, 0x7a, 0xd2)),
      State(Col(0xfd, 0xe3, 0xba, 0xd2), Col(0x05, 0xe5, 0xd0, 0xd7), Col(0x35, 0x47, 0x96, 0x4e), Col(0xf1, 0xfe, 0x37, 0xf1)));
  }

  lemma Box9a()
    ensures SubCol(Col(0xfd, 0xe3, 0xba, 0xd2)) == Col(0x54, 0x11, 0xf4, 0xb5)
    ensures SubCol(Col(0x05, 0xe5, 0xd0, 0xd7)) == Col(0x6b, 0xd9, 0x70, 0x0e)
  {}

  lemma Box9b()
    ensures SubCol(Col(0x35, 0x47, 0x96, 0x4e)) == Col(0x96, 0xa0, 0x90, 0x2f)
    ensures SubCol(Col(0xf1, 0xfe, 0x37, 0xf1)) == Col(0xa1, 0xbb, 0x9a, 0xa1)
  {}

  lemma Round9()
    ensures Reached(9) == State(Col(0xbd, 0x6e, 0x7c, 0x3d), Col(0xf2, 0xb5, 0x77, 0x9e), Col(0x0b, 0x61, 0x21, 0x6e), Col(0x8b, 0x10, 0xb6, 0x89))
  {
    hide Reached, RoundKey, SubCol;
    Box9a();
    Box9b();
    Round8();
    RoundKey9();
    OneRound(9, State(Col(0xfd, 0xe3, 0xba, 0xd2), Col(0x05, 0xe5, 0xd0, 0xd7), Col(0x35, 0x47, 0x96, 0x4e), Col(0xf1, 0xfe, 0x37, 0xf1)),
      State(Col(0x54, 0x11, 0xf4, 0xb5), Col(0x6b, 0xd9, 0x70, 0x0e), Col(0x96, 0xa0, 0x90, 0x2f), Col(0xa1, 0xbb, 0x9a, 0xa1)),
      State(Col(0x54, 0xd9, 0x90, 0xa1), Col(0x6b, 0xa0, 0x9a, 0xb5), Col(0x96, 0xbb, 0xf4, 0x0e), Col(0xa1, 0x11, 0x70, 0x2f)),
      State(Col(0xe9, 0xf7, 0x4e, 0xec), Col(0x02, 0x30, 0x20, 0xf6), Col(0x1b, 0xf2, 0xcc, 0xf2), Col(0x35, 0x3c, 0x21, 0xc7)),
      State(Col(0x54, 0x99, 0x32, 0xd1), Col(0xf0, 0x85, 0x57, 0x68), Col(0x10, 0x93, 0xed, 0x9c), Col(0xbe, 0x2c, 0x97, 0x4e)),
      State(Col(0xbd, 0x6e, 0x7c, 0x3d), Col(0xf2, 0xb5, 0x77, 0x9e), Col(0x0b, 0x61, 0x21, 0x6e), Col(0x8b, 0x10, 0xb6, 0x89)));
  }

  lemma Box10a()
    ensures SubCol(Col(0xbd, 0x6e, 0x7c, 0x3d)) == Col(0x7a, 0x9f, 0x10, 0x27)
    ensures SubCol(Col(0xf2, 0xb5, 0x77, 0x9e)) == Col(0x89, 0xd5, 0xf5, 0x0b)
  {}

  lemma Box10b()
    ensures SubCol(Col(0x0b, 0x61, 0x21, 0x6e)) == Col(0x2b, 0xef, 0xfd, 0x9f)
    ensures SubCol(Col(0x8b, 0x10, 0xb6, 0x89)) == Col(0x3d, 0xca, 0x4e, 0xa7)
  {}

  lemma LastRound()
    ensures Cipher(Words(), 10, Load(PLAIN)) == State(Col(0x69, 0xc4, 0xe0, 0xd8), Col(0x6a, 0x7b, 0x04, 0x30), Col(0xd8, 0xcd, 0xb7, 0x80), Col(0x70, 0xb4, 0xc5, 0x5a))
  {
    hide Words, RoundKey, AddKey, Rounds, SubCol;
    Box10a();
    Box10b();
    Round9();
    RoundKey10();
    var start := State(Col(0xbd, 0x6e, 0x7c, 0x3d), Col(0xf2, 0xb5, 0x77, 0x9e), Col(0x0b, 0x61, 0x21, 0x6e), Col(0x8b, 0x10, 0xb6, 0x89));
    var box := State(Col(0x7a, 0x9f, 0x10, 0x27), Col(0x89, 0xd5, 0xf5, 0x0b), Col(0x2b, 0xef, 0xfd, 0x9f), Col(0x3d, 0xca, 0x4e, 0xa7));
    var row := State(Col(0x7a, 0xd5, 0xfd, 0xa7), Col(0x89, 0xef, 0x4e, 0x27), Col(0x2b, 0xca, 0x10, 0x0b), Col(0x3d, 0x9f, 0xf5, 0x9f));
    assert Sub(start) == box;
    assert Shift(box) == row;
    AddsRoundKey(row, 10);
  }

  // Encrypted under the key 000102..0f, the block 00112233..ff is 69c4e0d86a7b0430d8cdb78070b4c55a.
  lemma ExampleOfC1()
    ensures EncryptBlock(Schedule(KEY, 128), 128, PLAIN)
         == [0x69, 0xc4, 0xe0, 0xd8, 0x6a, 0x7b, 0x04, 0x30, 0xd8, 0xcd, 0xb7, 0x80, 0x70, 0xb4, 0xc5, 0x5a]
  {
    hide Cipher, Load;
    LastRound();
  }
}
